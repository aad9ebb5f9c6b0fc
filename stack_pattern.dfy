/**
 * The stack-line grammar `stackReg` of src/shared/utils/parseStack.ts:1,
 *
 *     ^\s*at (?:(.+) \()?([^(]+?):(\d+):(\d+)\)?$
 *
 * written out by hand. `Compose` and `WellFormed` describe the lines the pattern
 * accepts, piece by piece; `MatchLine` is the matcher. The two lemmas at the end
 * prove that `MatchLine` accepts exactly the composed well-formed lines and returns
 * their pieces, so the backtracking choices of the regular expression never matter:
 * a line that matches splits into its groups in one way only.
 */
module StackPattern {
  import opened Wrappers
  import opened JsStrings

  /** The tail `<file>:<line>:<column>` with its optional closing `)`. */
  datatype Location = Location(fileName: string, lineDigits: string, columnDigits: string, closed: bool)

  /**
   * One successful match: the consumed indentation, capture group 1 (the caller,
   * absent when the optional group did not take part), and groups 2 to 4.
   */
  datatype LineMatch = LineMatch(indent: string, caller: Option<string>, location: Location)

  function ComposeLocation(loc: Location): string {
    loc.fileName + ":" + loc.lineDigits + ":" + loc.columnDigits + (if loc.closed then ")" else "")
  }

  function Compose(m: LineMatch): string {
    m.indent + "at " + (if m.caller.Some? then m.caller.value + " (" else "") + ComposeLocation(m.location)
  }

  /** `([^(]+?):(\d+):(\d+)`: a non-empty file part without `(`, then two non-empty digit runs. */
  predicate LocationWellFormed(loc: Location) {
    loc.fileName != "" && '(' !in loc.fileName &&
    loc.lineDigits != "" && AllDigits(loc.lineDigits) &&
    loc.columnDigits != "" && AllDigits(loc.columnDigits)
  }

  /** `\s*` for the indentation and `.+` (no line terminator) for the caller. */
  predicate WellFormed(m: LineMatch) {
    AllWhitespace(m.indent) &&
    (m.caller.Some? ==> m.caller.value != "" && NoLineTerminator(m.caller.value)) &&
    LocationWellFormed(m.location)
  }

  /** Splits `<x>:<digits>` at the colon before the maximal run of trailing digits. */
  function TrailingNumber(t: string): Option<(string, string)> {
    var c := TrailingDigits(t);
    if c == 0 || c == |t| || t[|t| - c - 1] != ':' then None
    else Some((t[..|t| - c - 1], t[|t| - c..]))
  }

  /** `\)?$`: the optional closing parenthesis, taken off the end. */
  function StripCloser(t: string): (string, bool) {
    if |t| > 0 && t[|t| - 1] == ')' then (t[..|t| - 1], true) else (t, false)
  }

  /** Matches `([^(]+?):(\d+):(\d+)\)?$`. */
  function MatchLocation(t: string): Option<Location> {
    var (body, closed) := StripCloser(t);
    match TrailingNumber(body)
    case None => None
    case Some((left, column)) =>
      match TrailingNumber(left)
      case None => None
      case Some((file, line)) =>
        if file == "" || '(' in file then None
        else Some(Location(file, line, column, closed))
  }

  /** `^\s*at `: the indentation a greedy `\s*` takes, and what follows `at `. */
  function MatchPrefix(line: string): Option<(string, string)> {
    var w := LeadingWhitespace(line);
    var afterIndent := line[w..];
    if |afterIndent| < 3 || afterIndent[..3] != "at " then None
    else Some((line[..w], afterIndent[3..]))
  }

  /**
   * `(?:(.+) \()?`: a `(` anywhere means the caller group must take part. Then `.+`
   * ends just before the last `(`, which must follow a space, and the text after that
   * `(` is left for the location. Without `(`, all of the text is left.
   */
  function MatchCaller(s: string): Option<(Option<string>, string)> {
    match LastIndexOf(s, '(')
    case None => Some((None, s))
    case Some(k) =>
      if k < 2 || s[k - 1] != ' ' || !NoLineTerminator(s[..k - 1]) then None
      else Some((Some(s[..k - 1]), s[k + 1..]))
  }

  /**
   * `stackReg.exec(line)`. Every line it matches is a well-formed `at` line whose
   * groups rebuild it; `MatchLineComplete` gives the converse.
   */
  function MatchLine(line: string): (r: Option<LineMatch>)
    ensures r.Some? ==> WellFormed(r.value) && Compose(r.value) == line
  {
    match MatchPrefix(line)
    case None => None
    case Some((indent, s)) =>
      MatchPrefixSound(line);
      match MatchCaller(s)
      case None => None
      case Some((caller, tail)) =>
        MatchCallerSound(s);
        match MatchLocation(tail)
        case None => None
        case Some(loc) =>
          MatchLocationSound(tail);
          ComposeFromStages(LineMatch(indent, caller, loc), s, tail);
          Some(LineMatch(indent, caller, loc))
  }

  /** The matched line, rebuilt from the text after `at ` as the stages split it. */
  lemma ComposeFromStages(m: LineMatch, s: string, tail: string)
    requires s == (if m.caller.Some? then m.caller.value + " (" else "") + tail
    requires tail == ComposeLocation(m.location)
    ensures Compose(m) == m.indent + "at " + s
  {
    ConcatAssoc(m.indent + "at ", if m.caller.Some? then m.caller.value + " (" else "", tail);
  }

  // ---------------------------------------------------------------------
  // Stage by stage
  // ---------------------------------------------------------------------

  lemma TrailingNumberSound(t: string)
    requires TrailingNumber(t).Some?
    ensures var (x, d) := TrailingNumber(t).value; t == x + ":" + d && d != "" && AllDigits(d)
  {
    var c := TrailingDigits(t);
    assert t == t[..|t| - c - 1] + [t[|t| - c - 1]] + t[|t| - c..];
  }

  lemma TrailingNumberComplete(x: string, d: string)
    requires d != "" && AllDigits(d)
    ensures TrailingNumber(x + ":" + d) == Some((x, d))
  {
    var t := x + ":" + d;
    TrailingDigitsOf(x + ":", d);
    assert t == (x + ":") + d;
    assert t[..|t| - |d| - 1] == x;
    assert t[|t| - |d|..] == d;
  }

  lemma StripCloserSound(t: string)
    ensures var (body, closed) := StripCloser(t); t == body + (if closed then ")" else "")
  {
  }

  lemma StripCloserComplete(body: string, closed: bool)
    requires body != "" && IsDigit(body[|body| - 1])
    ensures StripCloser(body + (if closed then ")" else "")) == (body, closed)
  {
    if closed {
      assert (body + ")")[..|body|] == body;
    } else {
      assert body + "" == body;
    }
  }

  lemma MatchPrefixSound(line: string)
    requires MatchPrefix(line).Some?
    ensures var (indent, s) := MatchPrefix(line).value; AllWhitespace(indent) && line == indent + "at " + s
  {
    var w := LeadingWhitespace(line);
    var afterIndent := line[w..];
    assert line == line[..w] + afterIndent;
    assert afterIndent == afterIndent[..3] + afterIndent[3..];
  }

  lemma MatchPrefixComplete(indent: string, s: string)
    requires AllWhitespace(indent)
    ensures MatchPrefix(indent + "at " + s) == Some((indent, s))
  {
    var line := indent + "at " + s;
    assert line == indent + ("at " + s);
    LeadingWhitespaceOf(indent, "at " + s);
    assert line[..|indent|] == indent;
    var afterIndent := line[|indent|..];
    assert afterIndent == "at " + s;
    assert afterIndent[..3] == "at ";
    assert afterIndent[3..] == s;
  }

  lemma MatchCallerSound(s: string)
    requires MatchCaller(s).Some?
    ensures var (caller, tail) := MatchCaller(s).value;
      '(' !in tail &&
      (caller.Some? ==> caller.value != "" && NoLineTerminator(caller.value)) &&
      s == (if caller.Some? then caller.value + " (" else "") + tail
  {
    match LastIndexOf(s, '(')
    case None =>
    case Some(k) =>
      assert s == s[..k - 1] + s[k - 1..k + 1] + s[k + 1..];
      assert s[k - 1..k + 1] == " (";
  }

  lemma MatchCallerComplete(caller: Option<string>, tail: string)
    requires '(' !in tail
    requires caller.Some? ==> caller.value != "" && NoLineTerminator(caller.value)
    ensures MatchCaller((if caller.Some? then caller.value + " (" else "") + tail) == Some((caller, tail))
  {
    var s := (if caller.Some? then caller.value + " (" else "") + tail;
    if caller.Some? {
      var c := caller.value;
      var k := |c| + 1;
      assert s[k] == '(';
      assert forall j :: k < j < |s| ==> s[j] == tail[j - k - 1];
      LastIndexOfAt(s, '(', k);
      assert s[k - 1] == ' ';
      assert s[..k - 1] == c;
      assert s[k + 1..] == tail;
    } else {
      assert s == tail;
    }
  }

  // ---------------------------------------------------------------------
  // The location tail
  // ---------------------------------------------------------------------

  lemma DigitsHaveNoParen(d: string)
    requires AllDigits(d)
    ensures '(' !in d && ':' !in d
  {
    forall i | 0 <= i < |d| ensures d[i] != '(' && d[i] != ':' {
      assert IsDigit(d[i]);
    }
  }

  lemma MatchLocationSound(t: string)
    requires MatchLocation(t).Some?
    ensures LocationWellFormed(MatchLocation(t).value)
    ensures ComposeLocation(MatchLocation(t).value) == t
  {
    var (body, closed) := StripCloser(t);
    StripCloserSound(t);
    TrailingNumberSound(body);
    var (left, column) := TrailingNumber(body).value;
    TrailingNumberSound(left);
  }

  lemma MatchLocationComplete(loc: Location)
    requires LocationWellFormed(loc)
    ensures MatchLocation(ComposeLocation(loc)) == Some(loc)
  {
    var left := loc.fileName + ":" + loc.lineDigits;
    var body := left + ":" + loc.columnDigits;
    assert ComposeLocation(loc) == body + (if loc.closed then ")" else "");
    assert body[|body| - 1] == loc.columnDigits[|loc.columnDigits| - 1];
    StripCloserComplete(body, loc.closed);
    TrailingNumberComplete(left, loc.columnDigits);
    TrailingNumberComplete(loc.fileName, loc.lineDigits);
  }

  lemma NoParenInLocation(loc: Location)
    requires LocationWellFormed(loc)
    ensures '(' !in ComposeLocation(loc)
  {
    DigitsHaveNoParen(loc.lineDigits);
    DigitsHaveNoParen(loc.columnDigits);
  }

  // ---------------------------------------------------------------------
  // Whole lines
  // ---------------------------------------------------------------------

  /** Every well-formed line is accepted, with exactly the pieces it was built from. */
  lemma MatchLineComplete(m: LineMatch)
    requires WellFormed(m)
    ensures MatchLine(Compose(m)) == Some(m)
  {
    var tail := ComposeLocation(m.location);
    var s := (if m.caller.Some? then m.caller.value + " (" else "") + tail;
    assert Compose(m) == m.indent + "at " + s;
    MatchPrefixComplete(m.indent, s);
    NoParenInLocation(m.location);
    MatchCallerComplete(m.caller, tail);
    MatchLocationComplete(m.location);
  }

  /** The match is unique: two well-formed matches that spell the same line are the same match. */
  lemma ComposeInjective(m1: LineMatch, m2: LineMatch)
    requires WellFormed(m1) && WellFormed(m2)
    requires Compose(m1) == Compose(m2)
    ensures m1 == m2
  {
    MatchLineComplete(m1);
    MatchLineComplete(m2);
  }
}
