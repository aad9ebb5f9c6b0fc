/**
 * The pieces of JavaScript's string semantics that the logger relies on:
 * the `\s`, `\d` and `.` character classes of its regular expressions,
 * `indexOf`/`lastIndexOf`, `split` and `join` with a string separator,
 * `padStart`, `toUpperCase`, `parseInt(_, 10)` and the decimal text of a
 * number. A string is a sequence of characters.
 */
module JsStrings {
  import opened Wrappers

  /** The characters matched by `\s` in a JavaScript regular expression. */
  predicate IsWhitespace(c: char) {
    var n := c as int;
    n == 0x09 || n == 0x0A || n == 0x0B || n == 0x0C || n == 0x0D || n == 0x20 ||
    n == 0xA0 || n == 0x1680 || (0x2000 <= n <= 0x200A) || n == 0x2028 || n == 0x2029 ||
    n == 0x202F || n == 0x205F || n == 0x3000 || n == 0xFEFF
  }

  /** The characters that `.` does not match when the `s` flag is absent. */
  predicate IsLineTerminator(c: char) {
    var n := c as int;
    n == 0x0A || n == 0x0D || n == 0x2028 || n == 0x2029
  }

  /** The characters matched by `\d`. */
  predicate IsDigit(c: char) {
    '0' <= c <= '9'
  }

  predicate AllWhitespace(s: string) {
    forall i :: 0 <= i < |s| ==> IsWhitespace(s[i])
  }

  predicate AllDigits(s: string) {
    forall i :: 0 <= i < |s| ==> IsDigit(s[i])
  }

  predicate NoLineTerminator(s: string) {
    forall i :: 0 <= i < |s| ==> !IsLineTerminator(s[i])
  }

  function Max(a: int, b: int): int {
    if a >= b then a else b
  }

  // ---------------------------------------------------------------------
  // Maximal runs at either end of a string
  // ---------------------------------------------------------------------

  /** The length of the longest prefix of `s` made of whitespace: what a greedy `^\s*` consumes. */
  function LeadingWhitespace(s: string): (n: nat)
    ensures n <= |s| && AllWhitespace(s[..n])
    ensures n < |s| ==> !IsWhitespace(s[n])
  {
    if |s| > 0 && IsWhitespace(s[0]) then
      var k := LeadingWhitespace(s[1..]);
      assert s[..k + 1] == [s[0]] + s[1..][..k];
      k + 1
    else
      0
  }

  lemma LeadingWhitespaceOf(w: string, rest: string)
    requires AllWhitespace(w)
    requires |rest| > 0 ==> !IsWhitespace(rest[0])
    ensures LeadingWhitespace(w + rest) == |w|
  {
    var s := w + rest;
    var n := LeadingWhitespace(s);
    assert forall i :: 0 <= i < |w| ==> IsWhitespace(s[i]);
    assert forall i :: 0 <= i < n ==> IsWhitespace(s[i]) by {
      forall i | 0 <= i < n ensures IsWhitespace(s[i]) {
        assert s[..n][i] == s[i];
      }
    }
    assert |w| < |s| ==> s[|w|] == rest[0];
  }

  /** The length of the longest suffix of `s` made of digits. */
  function TrailingDigits(s: string): (n: nat)
    ensures n <= |s| && AllDigits(s[|s| - n..])
    ensures n < |s| ==> !IsDigit(s[|s| - n - 1])
  {
    if |s| > 0 && IsDigit(s[|s| - 1]) then
      var init := s[..|s| - 1];
      var k := TrailingDigits(init);
      assert forall i :: |s| - (k + 1) <= i < |s| - 1 ==> s[i] == init[i];
      var run := s[|s| - (k + 1)..];
      assert AllDigits(run) by {
        forall i | 0 <= i < |run| ensures IsDigit(run[i]) {
          if i < k {
            assert run[i] == init[|init| - k..][i];
          }
        }
      }
      assert k < |init| ==> init[|init| - k - 1] == s[|s| - (k + 1) - 1];
      k + 1
    else
      0
  }

  lemma {:induction false} TrailingDigitsOf(x: string, d: string)
    requires AllDigits(d)
    requires |x| > 0 ==> !IsDigit(x[|x| - 1])
    ensures TrailingDigits(x + d) == |d|
    decreases |d|
  {
    var s := x + d;
    if |d| == 0 {
      assert s == x;
    } else {
      assert s[|s| - 1] == d[|d| - 1];
      assert s[..|s| - 1] == x + d[..|d| - 1];
      TrailingDigitsOf(x, d[..|d| - 1]);
    }
  }

  // ---------------------------------------------------------------------
  // Searching
  // ---------------------------------------------------------------------

  /** `s.lastIndexOf(c)`, with `None` for -1. */
  function LastIndexOf(s: string, c: char): (r: Option<nat>)
    ensures r.None? ==> forall j :: 0 <= j < |s| ==> s[j] != c
    ensures r.Some? ==> r.value < |s| && s[r.value] == c
    ensures r.Some? ==> forall j :: r.value < j < |s| ==> s[j] != c
  {
    if |s| == 0 then None
    else if s[|s| - 1] == c then Some(|s| - 1)
    else
      var r := LastIndexOf(s[..|s| - 1], c);
      assert forall j :: 0 <= j < |s| - 1 ==> s[..|s| - 1][j] == s[j];
      r
  }

  lemma LastIndexOfAt(s: string, c: char, k: nat)
    requires k < |s| && s[k] == c
    requires forall j :: k < j < |s| ==> s[j] != c
    ensures LastIndexOf(s, c) == Some(k)
  {
  }

  /** `sep` occurs in `s` starting at index `i`. */
  predicate OccursAt(s: string, sep: string, i: nat) {
    i + |sep| <= |s| && s[i..i + |sep|] == sep
  }

  /** `s.indexOf(sep, from)`, with `None` for -1. */
  function IndexOfFrom(s: string, sep: string, from: nat): (r: Option<nat>)
    requires from <= |s|
    ensures r.Some? ==> from <= r.value && OccursAt(s, sep, r.value)
    ensures r.Some? ==> forall j: nat :: from <= j < r.value ==> !OccursAt(s, sep, j)
    ensures r.None? ==> forall j: nat :: from <= j ==> !OccursAt(s, sep, j)
    decreases |s| - from
  {
    if from + |sep| > |s| then None
    else if s[from..from + |sep|] == sep then Some(from)
    else IndexOfFrom(s, sep, from + 1)
  }

  function IndexOf(s: string, sep: string): Option<nat> {
    IndexOfFrom(s, sep, 0)
  }

  /** When the first character of `sep` first appears at an occurrence of `sep`, that is where `indexOf` stops. */
  lemma IndexOfAtFirstHead(s: string, sep: string, i: nat)
    requires |sep| > 0 && OccursAt(s, sep, i)
    requires forall j :: 0 <= j < i ==> s[j] != sep[0]
    ensures IndexOf(s, sep) == Some(i)
  {
    forall j: nat | j < i ensures !OccursAt(s, sep, j) {
      assert s[j..j + |sep|][0] == s[j];
    }
  }

  lemma IndexOfWithoutHead(s: string, sep: string)
    requires |sep| > 0 && sep[0] !in s
    ensures IndexOf(s, sep) == None
  {
    forall j: nat | j + |sep| <= |s| ensures !OccursAt(s, sep, j) {
      assert s[j..j + |sep|][0] == s[j];
    }
  }

  /** When `sep` first occurs in `a + b` right where `b` starts, it does not occur in `a`. */
  lemma NoOccurrenceBefore(a: string, b: string, sep: string)
    requires |sep| > 0 && IndexOf(a + b, sep) == Some(|a|)
    ensures IndexOf(a, sep) == None
  {
    assert IndexOfFrom(a + b, sep, 0) == Some(|a|);
    forall j: nat | j + |sep| <= |a| ensures !OccursAt(a, sep, j) {
      assert !OccursAt(a + b, sep, j);
      assert (a + b)[j..j + |sep|] == a[j..j + |sep|];
    }
  }

  // ---------------------------------------------------------------------
  // split and join
  // ---------------------------------------------------------------------

  /** `s.split(sep)` for a non-empty string separator: leftmost, non-overlapping occurrences. */
  function Split(s: string, sep: string): (parts: seq<string>)
    requires |sep| > 0
    ensures |parts| >= 1
    decreases |s|
  {
    match IndexOf(s, sep)
    case None => [s]
    case Some(i) => [s[..i]] + Split(s[i + |sep|..], sep)
  }

  /** The first piece of a split holds no occurrence of the separator. */
  lemma SplitHeadFree(s: string, sep: string)
    requires |sep| > 0
    ensures IndexOf(Split(s, sep)[0], sep) == None
  {
    if IndexOf(s, sep).Some? {
      var i := IndexOf(s, sep).value;
      assert s == s[..i] + s[i..];
      NoOccurrenceBefore(s[..i], s[i..], sep);
    }
  }

  /** Nor does the second, when there is one. */
  lemma SplitSecondFree(s: string, sep: string)
    requires |sep| > 0 && |Split(s, sep)| >= 2
    ensures IndexOf(Split(s, sep)[1], sep) == None
  {
    var i := IndexOf(s, sep).value;
    var rest := s[i + |sep|..];
    assert Split(s, sep) == [s[..i]] + Split(rest, sep);
    assert Split(s, sep)[1] == Split(rest, sep)[0];
    SplitHeadFree(rest, sep);
  }

  /** A one-character separator that `indexOf` does not find is not in the string. */
  lemma AbsentChar(s: string, c: char)
    requires IndexOf(s, [c]) == None
    ensures c !in s
  {
    assert IndexOfFrom(s, [c], 0) == None;
    forall k | 0 <= k < |s| ensures s[k] != c {
      assert !OccursAt(s, [c], k);
      assert s[k..k + 1] == [s[k]];
    }
  }

  /** `parts.join(sep)`. */
  function Join(parts: seq<string>, sep: string): (r: string)
    ensures |parts| > 0 ==> |parts[0]| <= |r| && r[..|parts[0]|] == parts[0]
  {
    if |parts| == 0 then ""
    else if |parts| == 1 then parts[0]
    else parts[0] + sep + Join(parts[1..], sep)
  }

  lemma JoinCons(p: string, t: seq<string>, sep: string)
    requires |t| >= 1
    ensures Join([p] + t, sep) == p + sep + Join(t, sep)
  {
    assert ([p] + t)[1..] == t;
  }

  lemma AroundOccurrence(s: string, sep: string, i: nat)
    requires OccursAt(s, sep, i)
    ensures s == s[..i] + sep + s[i + |sep|..]
  {
    assert s == s[..i] + s[i..i + |sep|] + s[i + |sep|..];
  }

  /** Joining the pieces of a split with the same separator gives back the string. */
  lemma {:induction false} JoinSplit(s: string, sep: string)
    requires |sep| > 0
    ensures Join(Split(s, sep), sep) == s
    decreases |s|
  {
    var r := IndexOf(s, sep);
    if r.Some? {
      var i := r.value;
      var rest := s[i + |sep|..];
      var tail := Split(rest, sep);
      assert Split(s, sep) == [s[..i]] + tail;
      JoinSplit(rest, sep);
      JoinCons(s[..i], tail, sep);
      AroundOccurrence(s, sep, i);
    }
  }

  lemma {:induction false} JoinConcat(a: seq<string>, b: seq<string>, sep: string)
    requires |a| >= 1 && |b| >= 1
    ensures Join(a + b, sep) == Join(a, sep) + sep + Join(b, sep)
    decreases |a|
  {
    var ab := a + b;
    assert ab[0] == a[0];
    if |a| == 1 {
      assert ab[1..] == b;
      assert Join(ab, sep) == a[0] + sep + Join(b, sep);
    } else {
      assert ab[1..] == a[1..] + b;
      JoinConcat(a[1..], b, sep);
      assert Join(ab, sep) == a[0] + sep + Join(a[1..] + b, sep);
      assert Join(a, sep) == a[0] + sep + Join(a[1..], sep);
    }
  }

  /** A split stops at the separator when no earlier character could start one. */
  lemma SplitAtFirstHead(a: string, sep: string, b: string)
    requires |sep| > 0 && sep[0] !in a
    ensures Split(a + sep + b, sep) == [a] + Split(b, sep)
  {
    var s := a + sep + b;
    assert s[|a|..|a| + |sep|] == sep;
    IndexOfAtFirstHead(s, sep, |a|);
    assert s[..|a|] == a;
    assert s[|a| + |sep|..] == b;
  }

  lemma SplitWithoutHead(s: string, sep: string)
    requires |sep| > 0 && sep[0] !in s
    ensures Split(s, sep) == [s]
  {
    IndexOfWithoutHead(s, sep);
  }

  lemma ConcatAssoc<T>(a: seq<T>, b: seq<T>, c: seq<T>)
    ensures a + (b + c) == (a + b) + c
  {
  }

  /**
   * Splitting lines that were joined in front of a text: the joined lines come back
   * one by one, followed by the split of the text.
   */
  lemma {:induction false} SplitJoinedPrefix(pre: seq<string>, text: string, sep: string)
    requires |sep| > 0
    requires forall k :: 0 <= k < |pre| ==> sep[0] !in pre[k]
    ensures Split(Join(pre + [text], sep), sep) == pre + Split(text, sep)
    decreases |pre|
  {
    if |pre| == 0 {
      assert pre + [text] == [text];
    } else {
      var head, tail := pre[0], pre[1..];
      var later := tail + [text];
      assert pre + [text] == [head] + later;
      assert forall k :: 0 <= k < |tail| ==> tail[k] == pre[k + 1];
      SplitJoinedPrefix(tail, text, sep);
      JoinCons(head, later, sep);
      var joinedLater := Join(later, sep);
      SplitAtFirstHead(head, sep, joinedLater);
      calc {
        Split(Join(pre + [text], sep), sep);
        Split(head + sep + joinedLater, sep);
        [head] + Split(joinedLater, sep);
        [head] + (tail + Split(text, sep));
        { ConcatAssoc([head], tail, Split(text, sep)); }
        ([head] + tail) + Split(text, sep);
        { assert pre == [head] + tail; }
        pre + Split(text, sep);
      }
    }
  }

  lemma SplitHasTwoParts(s: string, c: char)
    requires c in s
    ensures |Split(s, [c])| >= 2
  {
    var k :| 0 <= k < |s| && s[k] == c;
    assert OccursAt(s, [c], k);
    assert IndexOf(s, [c]).Some?;
  }

  // ---------------------------------------------------------------------
  // Character-wise transformations
  // ---------------------------------------------------------------------

  /** `s.replace(/[[\]]/g, '')`: every `[` and `]` deleted. */
  function RemoveBrackets(s: string): (r: string)
    ensures forall i :: 0 <= i < |r| ==> r[i] != '[' && r[i] != ']'
    ensures (forall i :: 0 <= i < |s| ==> s[i] != '[' && s[i] != ']') ==> r == s
    ensures |r| <= |s|
  {
    if |s| == 0 then ""
    else (if s[0] == '[' || s[0] == ']' then "" else [s[0]]) + RemoveBrackets(s[1..])
  }

  /**
   * Every other character is kept as often as it occurs (and, by
   * `RemoveBracketsConcat`, in its order).
   */
  lemma {:induction false} RemoveBracketsKeeps(s: string, c: char)
    requires c != '[' && c != ']'
    ensures multiset(RemoveBrackets(s))[c] == multiset(s)[c]
    decreases |s|
  {
    if |s| > 0 {
      var rest := RemoveBrackets(s[1..]);
      RemoveBracketsKeeps(s[1..], c);
      CountCons(s[0], s[1..], c);
      assert [s[0]] + s[1..] == s;
      if s[0] == '[' || s[0] == ']' {
        assert RemoveBrackets(s) == rest by { assert "" + rest == rest; }
      } else {
        CountCons(s[0], rest, c);
      }
    }
  }

  /** How often `c` occurs after one more character is put in front. */
  lemma CountCons(x: char, t: string, c: char)
    ensures multiset([x] + t)[c] == (if x == c then 1 else 0) + multiset(t)[c]
  {
    assert multiset([x] + t) == multiset([x]) + multiset(t);
  }

  lemma {:induction false} RemoveBracketsConcat(a: string, b: string)
    ensures RemoveBrackets(a + b) == RemoveBrackets(a) + RemoveBrackets(b)
    decreases |a|
  {
    if |a| > 0 {
      assert (a + b)[1..] == a[1..] + b;
      RemoveBracketsConcat(a[1..], b);
    } else {
      assert a + b == b;
    }
  }

  function UpperChar(c: char): char {
    if 'a' <= c <= 'z' then (c as int - 32) as char else c
  }

  /** `s.toUpperCase()` on the ASCII letters; every other character is kept. */
  function ToUpper(s: string): (r: string)
    ensures |r| == |s|
    ensures forall i :: 0 <= i < |r| ==> !('a' <= r[i] <= 'z')
    ensures forall i :: 0 <= i < |s| && 'a' <= s[i] <= 'z' ==> r[i] as int == s[i] as int - 32
    ensures forall i :: 0 <= i < |s| && !('a' <= s[i] <= 'z') ==> r[i] == s[i]
  {
    seq(|s|, i requires 0 <= i < |s| => UpperChar(s[i]))
  }

  /** `s.padStart(width, ' ')`: spaces in front up to `width`, never truncated. */
  function PadStart(s: string, width: nat): (r: string)
    ensures |r| == Max(width, |s|)
    ensures r[|r| - |s|..] == s
    ensures forall i :: 0 <= i < |r| - |s| ==> r[i] == ' '
  {
    if |s| >= width then s else seq(width - |s|, _ => ' ') + s
  }

  // ---------------------------------------------------------------------
  // Decimal numbers
  // ---------------------------------------------------------------------

  function DigitValue(c: char): nat
    requires IsDigit(c)
  {
    c as int - '0' as int
  }

  function DigitChar(d: nat): (c: char)
    requires d < 10
    ensures IsDigit(c) && DigitValue(c) == d
  {
    ('0' as int + d) as char
  }

  /** `parseInt(d, 10)` of a string of decimal digits. */
  function DecimalValue(d: string): (r: nat)
    requires AllDigits(d)
    ensures |d| > 0 ==> r % 10 == DigitValue(d[|d| - 1])
  {
    if |d| == 0 then 0 else DecimalValue(d[..|d| - 1]) * 10 + DigitValue(d[|d| - 1])
  }

  /** A single digit is its own value. */
  lemma DecimalOneDigit(d: string)
    requires |d| == 1 && IsDigit(d[0])
    ensures AllDigits(d) && DecimalValue(d) == DigitValue(d[0])
  {
    assert d[..0] == "";
  }

  /** `parseInt` of a digit run is zero exactly when every digit is `0`. */
  lemma {:induction false} DecimalZero(d: string)
    requires AllDigits(d)
    ensures DecimalValue(d) == 0 <==> forall i :: 0 <= i < |d| ==> d[i] == '0'
    decreases |d|
  {
    if |d| > 0 {
      var init := d[..|d| - 1];
      DecimalZero(init);
      assert forall i :: 0 <= i < |init| ==> init[i] == d[i];
    }
  }

  /** `String(n)` for a natural number: no leading zero, and `parseInt` reads `n` back. */
  function NatToDecimal(n: nat): (d: string)
    ensures |d| >= 1 && AllDigits(d)
    ensures |d| > 1 ==> d[0] != '0'
    ensures DecimalValue(d) == n
  {
    if n < 10 then [DigitChar(n)]
    else
      var d := NatToDecimal(n / 10) + [DigitChar(n % 10)];
      assert d[..|d| - 1] == NatToDecimal(n / 10);
      d
  }
}
