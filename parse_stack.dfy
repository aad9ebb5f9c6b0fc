/**
 * `parseCallStack` of src/shared/utils/parseStack.ts: the frame an error's stack
 * text records at a given line. The result is `Partial<Stack>`, which the function
 * only ever fills completely or leaves as `{}`; here that is `Some(frame)` or `None`.
 */
module ParseStack {
  import opened Wrappers
  import opened JsStrings
  import opened StackPattern

  datatype Stack = Stack(
    fileName: string,
    lineNumber: nat,
    columnNumber: nat,
    callStack: string,
    className: string,
    functionName: string,
    functionAlias: string,
    callerName: string)

  /** `Partial<Stack>` as `parseCallStack` returns it: `None` is `{}`. */
  type PartialStack = Option<Stack>

  /** The names read out of capture group 1. */
  datatype CallerNames = CallerNames(className: string, functionName: string, functionAlias: string)

  /** `data.stack.split('\n')`. */
  function Lines(stack: string): seq<string> {
    Split(stack, "\n")
  }

  /** `lines.slice(skip)`. */
  function Drop(lines: seq<string>, skip: nat): seq<string> {
    if skip <= |lines| then lines[skip..] else []
  }

  /**
   * Group 1 with `[` and `]` deleted, split on `' as '`: the first piece is the name
   * and the second, if any, the alias.
   */
  function NameAndAlias(caller: string): (r: (string, string))
    ensures IndexOf(r.0, " as ") == None && IndexOf(r.1, " as ") == None
    ensures IndexOf(RemoveBrackets(caller), " as ") == None ==> r == (RemoveBrackets(caller), "")
  {
    var pieces := Split(RemoveBrackets(caller), " as ");
    SplitHeadFree(RemoveBrackets(caller), " as ");
    if |pieces| > 1 then
      SplitSecondFree(RemoveBrackets(caller), " as ");
      (pieces[0], pieces[1])
    else
      assert IndexOfFrom("", " as ", 0) == None;
      (pieces[0], "")
  }

  /**
   * A name with a dot gives its first segment as the class and its second as the
   * function; later segments are dropped. A name without one is the function.
   */
  function ClassAndFunction(name: string): (r: (string, string))
    ensures '.' !in r.0 && '.' !in r.1
  {
    if '.' in name then
      SplitHasTwoParts(name, '.');
      var segments := Split(name, ".");
      SplitHeadFree(name, ".");
      SplitSecondFree(name, ".");
      AbsentChar(segments[0], '.');
      AbsentChar(segments[1], '.');
      (segments[0], segments[1])
    else
      ("", name)
  }

  /** The three names `parseCallStack` reads out of capture group 1; no dot survives in the first two. */
  function CallerParts(caller: string): (r: CallerNames)
    ensures '.' !in r.className && '.' !in r.functionName
  {
    var (name, alias) := NameAndAlias(caller);
    var (cls, fn) := ClassAndFunction(name);
    CallerNames(cls, fn, alias)
  }

  /** The record built from a match and the re-joined lines. */
  function FrameOf(m: LineMatch, callStack: string): (r: Stack)
    requires LocationWellFormed(m.location)
    ensures r.fileName != "" && '(' !in r.fileName
    ensures '.' !in r.className && '.' !in r.functionName
    ensures m.caller.None? ==>
      r.className == "" && r.functionName == "" && r.functionAlias == "" && r.callerName == ""
  {
    var names := if m.caller.Some? then CallerParts(m.caller.value) else CallerNames("", "", "");
    Stack(
      m.location.fileName,
      DecimalValue(m.location.lineDigits),
      DecimalValue(m.location.columnDigits),
      callStack,
      names.className,
      names.functionName,
      names.functionAlias,
      if m.caller.Some? then m.caller.value else "")
  }

  /**
   * `parseCallStack(data, skip)`. The stack text is `None` when `data.stack` is missing:
   * calling `split` on it throws, and the exception is swallowed into `{}`.
   */
  function ParseCallStack(stack: Option<string>, skip: nat): (r: PartialStack)
    ensures r.Some? ==>
      stack.Some? && skip < |Lines(stack.value)| && MatchLine(Lines(stack.value)[skip]).Some?
    ensures r.Some? ==> r.value.fileName != "" && '(' !in r.value.fileName
  {
    match stack
    case None => None
    case Some(text) => ParseLines(Drop(Lines(text), skip))
  }

  /**
   * The rest of `parseCallStack` once the lines are sliced: match the first one and
   * build the record. When there is no line, `stackLines[0]` is `undefined`, which
   * `exec` reads as the text "undefined".
   */
  function ParseLines(stackLines: seq<string>): (r: PartialStack)
    ensures r.Some? ==> |stackLines| > 0 && MatchLine(stackLines[0]).Some?
    ensures r.Some? ==> r.value.callStack == Join(stackLines, "\n")
    ensures r.Some? ==> r.value.fileName != "" && '(' !in r.value.fileName
  {
    UndefinedNeverMatches();
    var examined := if |stackLines| == 0 then "undefined" else stackLines[0];
    match MatchLine(examined)
    case None => None
    case Some(m) => Some(FrameOf(m, Join(stackLines, "\n")))
  }

  // ---------------------------------------------------------------------
  // Properties
  // ---------------------------------------------------------------------

  lemma UndefinedNeverMatches()
    ensures MatchLine("undefined") == None
  {
    var line := "undefined";
    assert !IsWhitespace(line[0]);
    assert LeadingWhitespace(line) == 0;
    assert line[0..][..3] == "und";
  }

  /**
   * A frame is found exactly when the stack text exists, has a line at index `skip`
   * and that line matches the grammar; a missing stack, an index past the end and a
   * line that does not match all give `{}`.
   */
  lemma ParseSucceedsIff(stack: Option<string>, skip: nat)
    ensures ParseCallStack(stack, skip).Some? <==>
      stack.Some? && skip < |Lines(stack.value)| && MatchLine(Lines(stack.value)[skip]).Some?
  {
    UndefinedNeverMatches();
    if stack.Some? && skip < |Lines(stack.value)| {
      assert Drop(Lines(stack.value), skip)[0] == Lines(stack.value)[skip];
    }
  }

  /**
   * What a found frame holds: the examined line is a well-formed stack line whose
   * file part is non-empty and has no `(`, and the two numbers are the decimal values
   * of its two digit groups.
   */
  lemma ParsedFrameShape(text: string, skip: nat)
    requires ParseCallStack(Some(text), skip).Some?
    ensures var st := ParseCallStack(Some(text), skip).value;
      skip < |Lines(text)| &&
      st.fileName != "" && '(' !in st.fileName &&
      exists m :: WellFormed(m) && Compose(m) == Lines(text)[skip] &&
        st.fileName == m.location.fileName &&
        st.lineNumber == DecimalValue(m.location.lineDigits) &&
        st.columnNumber == DecimalValue(m.location.columnDigits) &&
        st.callerName == (if m.caller.Some? then m.caller.value else "")
  {
    ParseSucceedsIff(Some(text), skip);
    var line := Lines(text)[skip];
    assert Drop(Lines(text), skip)[0] == line;
    var m := MatchLine(line).value;
    assert WellFormed(m) && Compose(m) == line;
  }

  /**
   * `callStack` is the stack text with its first `skip` lines removed: those lines,
   * re-joined, then a newline, then `callStack`, give back the whole text.
   */
  lemma CallStackIsRest(text: string, skip: nat)
    requires ParseCallStack(Some(text), skip).Some?
    ensures skip < |Lines(text)|
    ensures var st := ParseCallStack(Some(text), skip).value;
      st.callStack == Join(Lines(text)[skip..], "\n") &&
      (skip == 0 ==> st.callStack == text) &&
      (skip > 0 ==> text == Join(Lines(text)[..skip], "\n") + "\n" + st.callStack)
  {
    assert Drop(Lines(text), skip) == Lines(text)[skip..];
    RestJoined(text, skip);
  }

  /** The lines of a text from index `skip` on, re-joined, are what follows the first `skip` lines. */
  lemma RestJoined(text: string, skip: nat)
    requires skip < |Lines(text)|
    ensures skip == 0 ==> Join(Lines(text)[skip..], "\n") == text
    ensures skip > 0 ==>
      text == Join(Lines(text)[..skip], "\n") + "\n" + Join(Lines(text)[skip..], "\n")
  {
    var lines := Lines(text);
    JoinSplit(text, "\n");
    if skip > 0 {
      assert lines == lines[..skip] + lines[skip..];
      JoinConcat(lines[..skip], lines[skip..], "\n");
    } else {
      assert lines[0..] == lines;
    }
  }

  /**
   * Only the lines from index `skip` on matter: putting any lines without a newline
   * in front of a stack text, and skipping that many more, gives the same result.
   */
  lemma DropAfterPrefix(pre: seq<string>, lines: seq<string>, skip: nat)
    ensures Drop(pre + lines, |pre| + skip) == Drop(lines, skip)
  {
    if skip <= |lines| {
      assert (pre + lines)[|pre| + skip..] == lines[skip..];
    }
  }

  lemma EarlierLinesIgnored(pre: seq<string>, text: string, skip: nat)
    requires forall k :: 0 <= k < |pre| ==> '\n' !in pre[k]
    ensures ParseCallStack(Some(Join(pre + [text], "\n")), |pre| + skip) == ParseCallStack(Some(text), skip)
  {
    var whole := Join(pre + [text], "\n");
    SplitJoinedPrefix(pre, text, "\n");
    DropAfterPrefix(pre, Lines(text), skip);
    assert Drop(Lines(whole), |pre| + skip) == Drop(Lines(text), skip);
  }

  /**
   * The frame read from a well-formed line: below `skip` lines of anything without a
   * newline, the line's own pieces come back as the record's fields, the numbers as
   * their decimal values, `callStack` as the line and everything after it, and the
   * name fields as `CallerParts` of the caller, or all `''` without one.
   */
  lemma ParseFrameLine(pre: seq<string>, m: LineMatch, post: seq<string>)
    requires forall k :: 0 <= k < |pre| ==> '\n' !in pre[k]
    requires WellFormed(m) && '\n' !in Compose(m)
    requires forall k :: 0 <= k < |post| ==> '\n' !in post[k]
    ensures ParseCallStack(Some(Join(pre + [Compose(m)] + post, "\n")), |pre|).Some?
    ensures var st := ParseCallStack(Some(Join(pre + [Compose(m)] + post, "\n")), |pre|).value;
      st.fileName == m.location.fileName &&
      st.lineNumber == DecimalValue(m.location.lineDigits) &&
      st.columnNumber == DecimalValue(m.location.columnDigits) &&
      st.callStack == Join([Compose(m)] + post, "\n") &&
      st.callerName == (if m.caller.Some? then m.caller.value else "") &&
      (m.caller.None? ==> st.className == "" && st.functionName == "" && st.functionAlias == "") &&
      (m.caller.Some? ==>
        CallerNames(st.className, st.functionName, st.functionAlias) == CallerParts(m.caller.value))
  {
    var line := Compose(m);
    var text := Join([line] + post, "\n");
    JoinNested(pre, line, post);
    EarlierLinesIgnored(pre, text, 0);
    FirstLineOfJoin(line, post);
    assert Drop(Lines(text), 0) == Lines(text);
    MatchLineComplete(m);
    JoinSplit(text, "\n");
  }

  /** The same frame as one value: the record `FrameOf` builds from the line's pieces. */
  lemma ParseFrameLineValue(pre: seq<string>, m: LineMatch, post: seq<string>)
    requires forall k :: 0 <= k < |pre| ==> '\n' !in pre[k]
    requires WellFormed(m) && '\n' !in Compose(m)
    requires forall k :: 0 <= k < |post| ==> '\n' !in post[k]
    ensures ParseCallStack(Some(Join(pre + [Compose(m)] + post, "\n")), |pre|) ==
      Some(FrameOf(m, Join([Compose(m)] + post, "\n")))
  {
    ParseFrameLine(pre, m, post);
  }

  lemma JoinNested(pre: seq<string>, line: string, post: seq<string>)
    ensures Join(pre + [line] + post, "\n") == Join(pre + [Join([line] + post, "\n")], "\n")
  {
    var later := [line] + post;
    var text := Join(later, "\n");
    assert pre + [line] + post == pre + later;
    if |pre| > 0 {
      JoinConcat(pre, later, "\n");
      JoinConcat(pre, [text], "\n");
    } else {
      assert pre + later == later && pre + [text] == [text];
    }
  }

  lemma FirstLineOfJoin(line: string, post: seq<string>)
    requires '\n' !in line
    ensures Lines(Join([line] + post, "\n"))[0] == line
  {
    if |post| > 0 {
      JoinCons(line, post, "\n");
      SplitAtFirstHead(line, "\n", Join(post, "\n"));
    } else {
      assert [line] + post == [line];
      SplitWithoutHead(line, "\n");
    }
  }

  // ---------------------------------------------------------------------
  // Caller names
  // ---------------------------------------------------------------------

  /** Bracket-free caller text in which `' as '` does not occur is all name. */
  lemma NameWithoutAlias(name: string)
    requires '[' !in name && ']' !in name && IndexOf(name, " as ") == None
    ensures NameAndAlias(name) == (name, "")
  {
  }

  lemma BracketFreeOpener(t: string)
    requires t == " [as "
    ensures RemoveBrackets(t) == " as "
  {
    assert t[1..] == "[as ";
    assert t[1..][1..] == "as ";
    assert RemoveBrackets("as ") == "as ";
  }

  lemma BracketFreeCloser(t: string)
    requires t == "]"
    ensures RemoveBrackets(t) == ""
  {
    assert t[1..] == "";
  }

  lemma StripAliasBrackets(name: string, alias: string)
    requires '[' !in name && ']' !in name
    requires '[' !in alias && ']' !in alias
    ensures RemoveBrackets(name + " [as " + alias + "]") == name + " as " + alias
  {
    RemoveBracketsConcat(name + " [as " + alias, "]");
    RemoveBracketsConcat(name + " [as ", alias);
    RemoveBracketsConcat(name, " [as ");
    BracketFreeOpener(" [as ");
    BracketFreeCloser("]");
    assert name + " as " + alias + "" == name + " as " + alias;
  }

  lemma SplitAlias(name: string, alias: string)
    requires IndexOf(name + " as " + alias, " as ") == Some(|name|)
    requires IndexOf(alias, " as ") == None
    ensures Split(name + " as " + alias, " as ") == [name, alias]
  {
    var s := name + " as " + alias;
    assert s[..|name|] == name;
    assert s[|name| + 4..] == alias;
  }

  /**
   * `<name> [as <alias>]`, where the first `' as '` after the brackets go is the one
   * between name and alias and the alias holds no other: the two are read back.
   */
  lemma NameWithAlias(name: string, alias: string)
    requires '[' !in name && ']' !in name
    requires '[' !in alias && ']' !in alias
    requires IndexOf(name + " as " + alias, " as ") == Some(|name|)
    requires IndexOf(alias, " as ") == None
    ensures NameAndAlias(name + " [as " + alias + "]") == (name, alias)
  {
    StripAliasBrackets(name, alias);
    SplitAlias(name, alias);
  }

  lemma UndottedName(name: string)
    requires '.' !in name
    ensures ClassAndFunction(name) == ("", name)
  {
  }

  lemma DottedName(cls: string, fn: string, tail: string)
    requires '.' !in cls && '.' !in fn
    requires tail == "" || tail[0] == '.'
    ensures ClassAndFunction(cls + "." + fn + tail) == (cls, fn)
  {
    var name := cls + "." + fn + tail;
    assert name[|cls|] == '.';
    assert name == cls + "." + (fn + tail);
    SplitAtFirstHead(cls, ".", fn + tail);
    if tail == "" {
      assert fn + tail == fn;
      SplitWithoutHead(fn, ".");
    } else {
      assert fn + tail == fn + "." + tail[1..];
      SplitAtFirstHead(fn, ".", tail[1..]);
    }
  }

  /** Caller text without brackets, dots or `' as '`: all of it is the function name. */
  lemma CallerPartsPlain(name: string)
    requires '[' !in name && ']' !in name && '.' !in name && IndexOf(name, " as ") == None
    ensures CallerParts(name) == CallerNames("", name, "")
  {
    NameWithoutAlias(name);
  }

  /**
   * A dotted name: the class is the segment before the first dot, the function the
   * segment between the first and the second dot, and anything from a second dot on
   * is dropped.
   */
  lemma CallerPartsDotted(cls: string, fn: string, tail: string)
    requires '.' !in cls && '.' !in fn
    requires tail == "" || tail[0] == '.'
    requires var name := cls + "." + fn + tail;
      '[' !in name && ']' !in name && IndexOf(name, " as ") == None
    ensures CallerParts(cls + "." + fn + tail) == CallerNames(cls, fn, "")
  {
    NameWithoutAlias(cls + "." + fn + tail);
    DottedName(cls, fn, tail);
  }

  /**
   * A V8 alias `<name> [as <alias>]`: the brackets go, the text after `' as '` is the
   * alias, and the class and function come from the name alone.
   */
  lemma CallerPartsAlias(name: string, alias: string)
    requires '[' !in name && ']' !in name
    requires '[' !in alias && ']' !in alias
    requires IndexOf(name + " as " + alias, " as ") == Some(|name|)
    requires IndexOf(alias, " as ") == None
    ensures CallerParts(name + " [as " + alias + "]") ==
      CallerNames(CallerParts(name).className, CallerParts(name).functionName, alias)
  {
    NameWithAlias(name, alias);
    NameHasNoAlias(name, alias);
    NameWithoutAlias(name);
  }

  lemma NameHasNoAlias(name: string, alias: string)
    requires IndexOf(name + " as " + alias, " as ") == Some(|name|)
    ensures IndexOf(name, " as ") == None
  {
    assert name + " as " + alias == name + (" as " + alias);
    NoOccurrenceBefore(name, " as " + alias, " as ");
  }

  // ---------------------------------------------------------------------
  // Concrete stack texts
  // ---------------------------------------------------------------------

  lemma DecimalTen()
    ensures DecimalValue("10") == 10
  {
    assert "10"[..1] == "1";
    assert "1"[..0] == "";
  }

  lemma ClassMethodNames()
    ensures CallerParts("Foo.bar") == CallerNames("Foo", "bar", "")
  {
    assert "Foo.bar" == "Foo" + "." + "bar" + "";
    IndexOfWithoutHead("Foo.bar", " as ");
    CallerPartsDotted("Foo", "bar", "");
  }

  /** A constructor frame: `new Foo` has a space but no `' as '`, so all of it is the function. */
  lemma ConstructorNames(name: string)
    requires name == "new" + " " + "Foo"
    ensures CallerParts(name) == CallerNames("", name, "")
  {
    assert !OccursAt(name, " as ", 3) by { assert name[3..7][1] == 'F'; }
    forall j: nat | j != 3 ensures !OccursAt(name, " as ", j) {
      if j + 4 <= |name| { assert name[j..j + 4][0] == name[j]; }
    }
    assert IndexOfFrom(name, " as ", 0) == None;
    CallerPartsPlain(name);
  }

  /** The pieces of `    at Foo.bar (file.js:10:5)`. */
  lemma ClassMethodLine(m: LineMatch)
    requires m == LineMatch("    ", Some("Foo.bar"), Location("file.js", "10", "5", true))
    ensures Compose(m) == "    at Foo.bar (file.js:10:5)"
  {
    assert ComposeLocation(m.location) == "file.js:10:5)";
  }

  lemma ClassMethodSingleLine(line: string)
    requires line == "    at Foo.bar (file.js:10:5)"
    ensures '\n' !in line
  {
  }

  lemma ClassMethodWellFormed(m: LineMatch)
    requires m == LineMatch("    ", Some("Foo.bar"), Location("file.js", "10", "5", true))
    ensures WellFormed(m)
  {
    assert AllWhitespace(m.indent);
    assert m.caller.value != "" && NoLineTerminator(m.caller.value);
    assert LocationWellFormed(m.location) by { assert AllDigits("10") && AllDigits("5"); }
  }

  /** The record `FrameOf` builds, field by field, for a match with or without a caller. */
  lemma FrameFields(m: LineMatch, callStack: string, names: CallerNames)
    requires LocationWellFormed(m.location)
    requires names == if m.caller.Some? then CallerParts(m.caller.value) else CallerNames("", "", "")
    ensures FrameOf(m, callStack) ==
      Stack(m.location.fileName, DecimalValue(m.location.lineDigits),
            DecimalValue(m.location.columnDigits), callStack, names.className,
            names.functionName, names.functionAlias,
            if m.caller.Some? then m.caller.value else "")
  {
  }

  lemma ClassMethodRecord(m: LineMatch, line: string)
    requires m == LineMatch("    ", Some("Foo.bar"), Location("file.js", "10", "5", true))
    ensures FrameOf(m, line) == Stack("file.js", 10, 5, line, "Foo", "bar", "", "Foo.bar")
  {
    ClassMethodWellFormed(m);
    ClassMethodNames();
    DecimalTen();
    DecimalOneDigit("5");
    FrameFields(m, line, CallerNames("Foo", "bar", ""));
  }

  /** The frame below the `Error` header of a typical V8 stack. */
  lemma ClassMethodFrame(text: string)
    requires text == "Error" + "\n" + "    at Foo.bar (file.js:10:5)"
    ensures ParseCallStack(Some(text), 1) ==
      Some(Stack("file.js", 10, 5, "    at Foo.bar (file.js:10:5)", "Foo", "bar", "", "Foo.bar"))
  {
    var m := LineMatch("    ", Some("Foo.bar"), Location("file.js", "10", "5", true));
    ClassMethodLine(m);
    ClassMethodWellFormed(m);
    var line := Compose(m);
    ClassMethodSingleLine(line);
    ClassMethodRecord(m, line);
    ParseFrameLineValue(["Error"], m, []);
    assert ["Error"] + [line] + [] == ["Error"] + [line];
    JoinCons("Error", [line], "\n");
    assert Join([line], "\n") == line;
    assert "Error" + "\n" + line == text;
    assert [line] + [] == [line];
  }

  /** The pieces of `    at /app/main.js:7:3`. */
  lemma AnonymousLine(m: LineMatch)
    requires m == LineMatch("    ", None, Location("/app/main.js", "7", "3", false))
    ensures Compose(m) == "    at /app/main.js:7:3"
  {
    assert ComposeLocation(m.location) == "/app/main.js:7:3";
  }

  lemma AnonymousSingleLine(line: string)
    requires line == "    at /app/main.js:7:3"
    ensures '\n' !in line
  {
  }

  lemma AnonymousWellFormed(m: LineMatch)
    requires m == LineMatch("    ", None, Location("/app/main.js", "7", "3", false))
    ensures WellFormed(m)
  {
    assert AllWhitespace(m.indent);
    assert LocationWellFormed(m.location) by { assert AllDigits("7") && AllDigits("3"); }
  }

  lemma AnonymousRecord(m: LineMatch, line: string)
    requires m == LineMatch("    ", None, Location("/app/main.js", "7", "3", false))
    ensures FrameOf(m, line) == Stack("/app/main.js", 7, 3, line, "", "", "", "")
  {
    DecimalOneDigit("7");
    DecimalOneDigit("3");
    FrameFields(m, line, CallerNames("", "", ""));
  }

  /** A frame without a caller: every name field is empty. */
  lemma AnonymousFrame(text: string)
    requires text == "    at /app/main.js:7:3"
    ensures ParseCallStack(Some(text), 0) ==
      Some(Stack("/app/main.js", 7, 3, text, "", "", "", ""))
  {
    var m := LineMatch("    ", None, Location("/app/main.js", "7", "3", false));
    AnonymousLine(m);
    AnonymousWellFormed(m);
    var line := Compose(m);
    AnonymousSingleLine(line);
    AnonymousRecord(m, line);
    ParseFrameLineValue([], m, []);
    assert [] + [line] + [] == [line];
  }
}
