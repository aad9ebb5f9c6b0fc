/**
 * The logging service of src/shared/logger/logger.service.ts: how a log call picks
 * its context, the text of the console and error-file lines, and the module-level
 * `stack` cell that `printMessage` overwrites and `formatContext` reads back.
 *
 * Colours are tags on the segments of a line, the clock, the process id and the
 * `ms` field are parameters, and the hand-off to winston is an `Emission` recorded
 * on the service.
 */
module Logger {
  import opened Wrappers
  import opened JsStrings
  import opened ParseStack

  // ---------------------------------------------------------------------
  // Log metadata and `getContext`
  // ---------------------------------------------------------------------

  /** A value passed as log metadata, as far as the logger looks at it. */
  datatype MetaValue =
    | MString(text: string)
    | MNumber(number: int)
    | MArray(items: seq<MetaValue>)
    | MObject(fields: map<string, MetaValue>)
    | MUndefined
    | MNull
    | MOther

  /** A plain object whose own properties `getContext` may write to. */
  class PlainObject {
    var fields: map<string, MetaValue>

    constructor(fields: map<string, MetaValue>)
      ensures this.fields == fields
    {
      this.fields := fields;
    }
  }

  /** What `getContext` is handed: an array, or a plain object shared with its caller. */
  datatype MetaArg = ArrayArg(items: seq<MetaValue>) | ObjectArg(obj: PlainObject)

  /** `isString(meta[meta.length - 1]) ? meta[meta.length - 1] : ''`. */
  function LastString(items: seq<MetaValue>): (r: string)
    ensures r != "" ==> |items| > 0 && items[|items| - 1] == MString(r)
    ensures |items| > 0 && items[|items| - 1].MString? ==> r == items[|items| - 1].text
    ensures (|items| == 0 || !items[|items| - 1].MString?) ==> r == ""
  {
    if |items| > 0 && items[|items| - 1].MString? then items[|items| - 1].text else ""
  }

  /** Appending a value: a string is the new context, anything else names none. */
  lemma LastStringAppended(pre: seq<MetaValue>, v: MetaValue)
    ensures LastString(pre + [v]) == (if v.MString? then v.text else "")
  {
    assert (pre + [v])[|pre|] == v;
  }

  /** `Array.from` of an object whose `length` is `n`: the values at keys "0" … "n-1". */
  function ArrayFrom(fields: map<string, MetaValue>, n: nat): (items: seq<MetaValue>)
    ensures |items| == n
    ensures forall i :: 0 <= i < n ==>
      items[i] == (if NatToDecimal(i) in fields then fields[NatToDecimal(i)] else MUndefined)
  {
    seq(n, i requires 0 <= i < n =>
      if NatToDecimal(i) in fields then fields[NatToDecimal(i)] else MUndefined)
  }

  /** The object after `meta.length = Object.keys(meta).length`. */
  function WithLength(fields: map<string, MetaValue>): (r: map<string, MetaValue>)
    ensures r.Keys == fields.Keys + {"length"}
    ensures r["length"] == MNumber(|fields|)
    ensures forall k :: k in fields && k != "length" ==> r[k] == fields[k]
  {
    fields["length" := MNumber(|fields|)]
  }

  /** The context `getContext` derives from a plain object with these own properties. */
  function ObjectContext(fields: map<string, MetaValue>): (r: string)
    ensures r != "" ==>
      |fields| > 0 && NatToDecimal(|fields| - 1) in fields &&
      fields[NatToDecimal(|fields| - 1)] == MString(r)
  {
    LastString(ArrayFrom(fields, |fields|))
  }

  lemma LengthIsNoIndex(i: nat)
    ensures NatToDecimal(i) != "length"
  {
    var d := NatToDecimal(i);
    assert IsDigit(d[0]);
  }

  /** Writing `length` does not change what `Array.from` reads. */
  lemma ArrayFromWithLength(fields: map<string, MetaValue>, n: nat)
    ensures ArrayFrom(WithLength(fields), n) == ArrayFrom(fields, n)
  {
    forall i | 0 <= i < n
      ensures ArrayFrom(WithLength(fields), n)[i] == ArrayFrom(fields, n)[i]
    {
      LengthIsNoIndex(i);
    }
  }

  /**
   * `getContext(meta)`. A plain object first gets `length` set to its own-key count
   * and is read as an array of that length; an array is read as it is. The context
   * is the last element when that is a string, and `''` otherwise.
   */
  method GetContext(meta: MetaArg) returns (context: string)
    modifies if meta.ObjectArg? then {meta.obj} else {}
    ensures meta.ArrayArg? ==> context == LastString(meta.items)
    ensures meta.ObjectArg? ==> meta.obj.fields == WithLength(old(meta.obj.fields))
    ensures meta.ObjectArg? ==> context == ObjectContext(old(meta.obj.fields))
  {
    var items: seq<MetaValue>;
    match meta {
      case ArrayArg(a) =>
        items := a;
      case ObjectArg(obj) =>
        var n := |obj.fields|;
        ghost var before := obj.fields;
        obj.fields := obj.fields["length" := MNumber(n)];
        items := ArrayFrom(obj.fields, n);
        ArrayFromWithLength(before, n);
    }
    if |items| > 0 && items[|items| - 1].MString? {
      context := items[|items| - 1].text;
    } else {
      context := "";
    }
  }

  /**
   * For a plain object, "last" is the key `n - 1` where `n` is the number of own keys:
   * the context is the string stored there, and `''` when that key is missing, holds
   * something other than a string, or the object is empty.
   */
  lemma ObjectContextLastKey(fields: map<string, MetaValue>)
    ensures var n := |fields|;
      ObjectContext(fields) ==
        if n > 0 && NatToDecimal(n - 1) in fields && fields[NatToDecimal(n - 1)].MString?
        then fields[NatToDecimal(n - 1)].text
        else ""
  {
    var n := |fields|;
    if n > 0 {
      assert ArrayFrom(fields, n)[n - 1] ==
        (if NatToDecimal(n - 1) in fields then fields[NatToDecimal(n - 1)] else MUndefined);
    }
  }

  /**
   * `{requestId: 'r1'}` handed to `getContext` directly has one key but no key "0":
   * it names no context. Neither log path hands it over as it is: through a level
   * method `printMessage` sees `[[{requestId}]]`, and the console format sees the
   * object `{"0": {requestId}}`; `RequestIdMetaHasNoContext` covers that path.
   */
  lemma RequestIdObjectHasNoContext()
    ensures ObjectContext(map["requestId" := MString("r1")]) == ""
  {
    var fields := map["requestId" := MString("r1")];
    assert |fields| == 1;
    assert NatToDecimal(0) == "0";
    ObjectContextLastKey(fields);
  }

  /**
   * `warn('x', {requestId: 'r1'})`: the console format reads the metadata object
   * winston builds from the forwarded array, and its last element is an object, not
   * a string, so no context is named.
   */
  lemma RequestIdMetaHasNoContext()
    ensures ObjectContext(IndexKeys([MObject(map["requestId" := MString("r1")])])) == ""
  {
    ConsoleContextIsLastString([MObject(map["requestId" := MString("r1")])]);
  }

  // ---------------------------------------------------------------------
  // The metadata object winston hands to the format
  // ---------------------------------------------------------------------

  /**
   * The `info.metadata` object built from the one array a level method forwards:
   * winston copies the array's own properties into the record, so the keys are the
   * indices "0" … "n-1", and `format.metadata()` moves them into `metadata`.
   */
  function IndexKeys(items: seq<MetaValue>): (fields: map<string, MetaValue>)
    ensures |fields| == |items|
    ensures forall i :: 0 <= i < |items| ==>
      NatToDecimal(i) in fields && fields[NatToDecimal(i)] == items[i]
    ensures forall k :: k in fields ==> AllDigits(k) && DecimalValue(k) < |items|
  {
    if |items| == 0 then map[]
    else
      var last := |items| - 1;
      var earlier := IndexKeys(items[..last]);
      assert NatToDecimal(last) !in earlier;
      var fields := earlier[NatToDecimal(last) := items[last]];
      assert forall i :: 0 <= i < last ==> NatToDecimal(i) != NatToDecimal(last) by {
        forall i | 0 <= i < last ensures NatToDecimal(i) != NatToDecimal(last) {
          assert DecimalValue(NatToDecimal(i)) == i;
        }
      }
      assert forall i :: 0 <= i < last ==> items[..last][i] == items[i];
      fields
  }

  /**
   * The console shows the caller's context: when a level method is called with
   * `meta`, `defaultFormat` finds as context the last element of `meta` if that is a
   * string, whatever `printMessage` decided about the same call.
   */
  lemma ConsoleContextIsLastString(meta: seq<MetaValue>)
    ensures ObjectContext(IndexKeys(meta)) == LastString(meta)
  {
    var fields := IndexKeys(meta);
    assert ArrayFrom(fields, |fields|) == meta;
  }

  // ---------------------------------------------------------------------
  // Pure renderers
  // ---------------------------------------------------------------------

  /** `getPid()`: `"[Nest] " + pid + "  - "`, the pid in decimal. */
  function GetPid(pid: nat): (s: string)
    ensures |s| > 11 && s[..7] == "[Nest] " && s[|s| - 4..] == "  - "
    ensures AllDigits(s[7..|s| - 4]) && DecimalValue(s[7..|s| - 4]) == pid
  {
    var digits := NatToDecimal(pid);
    var s := "[Nest] " + digits + "  - ";
    assert s[7..|s| - 4] == digits;
    s
  }

  /** The colour wrappers of `@colors/colors` the logger uses, as tags. */
  datatype Style = Green | Yellow | Cyan | Magenta | Red | Bold

  /** The `LevelShader` table, looked up by upper-cased level; `None` for a missing key. */
  function LevelShader(levelUpper: string): (r: Option<Style>)
    ensures r.Some? <==> levelUpper in ["VERBOSE", "DEBUG", "WARN", "ERROR"]
  {
    if levelUpper == "VERBOSE" then Some(Cyan)
    else if levelUpper == "DEBUG" then Some(Magenta)
    else if levelUpper == "WARN" then Some(Yellow)
    else if levelUpper == "ERROR" then Some(Red)
    else None
  }

  /**
   * `LevelShader[levelUpper] || bold`: only the four listed levels have their own
   * colour; every other level is bold.
   */
  function Shader(levelUpper: string): (r: Style)
    ensures r != Bold <==> levelUpper in ["VERBOSE", "DEBUG", "WARN", "ERROR"]
  {
    match LevelShader(levelUpper)
    case Some(style) => style
    case None => Bold
  }

  /** The levels the six service methods use, with their colours. */
  lemma ServiceLevelShaders()
    ensures Shader(ToUpper("verbose")) == Cyan
    ensures Shader(ToUpper("debug")) == Magenta
    ensures Shader(ToUpper("warn")) == Yellow
    ensures Shader(ToUpper("error")) == Red
    ensures Shader(ToUpper("info")) == Bold
    ensures Shader(ToUpper("fatal")) == Bold
  {
    assert ToUpper("verbose") == "VERBOSE";
    assert ToUpper("debug") == "DEBUG";
    assert ToUpper("warn") == "WARN";
    assert ToUpper("error") == "ERROR";
    assert ToUpper("info") == "INFO";
    assert ToUpper("fatal") == "FATAL";
  }

  /** `level.toUpperCase().padStart(7, ' ')`. */
  function LevelToken(level: string): (token: string)
    ensures |token| == Max(7, |level|)
    ensures token[|token| - |level|..] == ToUpper(level)
    ensures forall i :: 0 <= i < |token| - |level| ==> token[i] == ' '
  {
    PadStart(ToUpper(level), 7)
  }

  /** `formatLevel(level)`: `' ' + level + ' '` left-padded to width 7, never cut. */
  function FormatLevel(level: string): (r: string)
    ensures |r| == Max(7, |level| + 2)
    ensures r[|r| - |level| - 2..] == " " + level + " "
    ensures forall i :: 0 <= i < |r| - |level| - 2 ==> r[i] == ' '
  {
    PadStart(" " + level + " ", 7)
  }

  // ---------------------------------------------------------------------
  // The `stack` cell and `formatContext`
  // ---------------------------------------------------------------------

  /**
   * The module variable `stack`: `None` until the first assignment, then the last
   * result of `parseCallStack` (which may itself be `{}`).
   */
  class StackCell {
    var stack: Option<PartialStack>

    constructor()
      ensures stack == None
    {
      stack := None;
    }
  }

  /** `${stack.className}`: an absent field renders as `undefined`. */
  function ClassNameText(frame: PartialStack): string {
    match frame
    case None => "undefined"
    case Some(st) => st.className
  }

  /** `${stack.functionName}`: an absent field renders as `undefined`. */
  function FunctionNameText(frame: PartialStack): string {
    match frame
    case None => "undefined"
    case Some(st) => st.functionName
  }

  /**
   * `formatContext(context)`: an explicit context in brackets; otherwise the class
   * and method of the last parsed frame, once `stack` has been assigned at all.
   */
  function FormatContext(cell: StackCell, context: string): (r: string)
    reads cell
    ensures r == "" <==> context == "" && cell.stack.None?
  {
    if context != "" then " [" + context + "] "
    else match cell.stack
      case None => ""
      case Some(frame) => " [" + ClassNameText(frame) + " method: " + FunctionNameText(frame) + "] "
  }

  /** An explicit context is shown as it is, in brackets, and the cell is not read. */
  lemma ExplicitContextShown(a: StackCell, b: StackCell, context: string)
    requires context != ""
    ensures FormatContext(a, context) == FormatContext(b, context)
    ensures var r := FormatContext(a, context);
      |r| == |context| + 4 && r[..2] == " [" && r[2..|r| - 2] == context && r[|r| - 2..] == "] "
  {
    var r := FormatContext(a, context);
    assert r == " [" + context + "] ";
    assert r[2..|r| - 2] == context;
  }

  /** After the empty parse result `{}` was stored, both names render as `undefined`. */
  lemma EmptyFrameRendersUndefined(cell: StackCell)
    requires cell.stack == Some(None)
    ensures FormatContext(cell, "") == " [undefined method: undefined] "
  {
  }

  /** A stored frame shows its own class and function names, even when they are `''`. */
  lemma StoredFrameRendersNames(cell: StackCell, st: Stack)
    requires cell.stack == Some(Some(st))
    ensures FormatContext(cell, "") == " [" + st.className + " method: " + st.functionName + "] "
  {
  }

  // ---------------------------------------------------------------------
  // The console line and the error-file line
  // ---------------------------------------------------------------------

  /** A piece of a line with the colour wrapper applied to it, if any. */
  datatype Segment = Segment(style: Option<Style>, text: string)

  /** The line with its colours removed. */
  function Plain(segments: seq<Segment>): string {
    if |segments| == 0 then "" else segments[0].text + Plain(segments[1..])
  }

  /** The part both sinks share: pid, timestamp, level token and context segment. */
  function ConsoleHeader(pid: nat, timestamp: string, level: string, contextSegment: string): (r: seq<Segment>)
    ensures |r| == 4
    ensures r[0] == Segment(Some(Green), GetPid(pid)) && r[1] == Segment(None, timestamp)
    ensures r[2] == Segment(Some(Shader(ToUpper(level))), LevelToken(level))
    ensures r[3] == Segment(Some(Green), contextSegment)
    ensures Plain(r) == GetPid(pid) + timestamp + LevelToken(level) + contextSegment
  {
    var header :=
      [ Segment(Some(Green), GetPid(pid)),
        Segment(None, timestamp),
        Segment(Some(Shader(ToUpper(level))), LevelToken(level)),
        Segment(Some(Green), contextSegment) ];
    PlainOfFour(header);
    header
  }

  /**
   * The line `defaultFormat` returns, given the context segment: the header, then the
   * message, a space and the `ms` field.
   */
  function ConsoleLine(pid: nat, timestamp: string, level: string, contextSegment: string,
                       message: string, ms: string): (r: seq<Segment>)
    ensures |r| == 7 && r[..4] == ConsoleHeader(pid, timestamp, level, contextSegment)
    ensures r[4] == Segment(Some(Green), message) && r[5] == Segment(None, " ")
    ensures r[6] == Segment(Some(Yellow), ms)
    ensures Plain(r) ==
      GetPid(pid) + timestamp + LevelToken(level) + contextSegment + message + " " + ms
  {
    var header := ConsoleHeader(pid, timestamp, level, contextSegment);
    var tail := [Segment(Some(Green), message), Segment(None, " "), Segment(Some(Yellow), ms)];
    HeaderThenMessage(header, tail, message, ms);
    header + tail
  }

  /** Any header, then the message, a space and `ms`, without colours. */
  lemma HeaderThenMessage(header: seq<Segment>, tail: seq<Segment>, message: string, ms: string)
    requires |header| == 4
    requires tail == [Segment(Some(Green), message), Segment(None, " "), Segment(Some(Yellow), ms)]
    ensures |header + tail| == 7 && (header + tail)[..4] == header
    ensures (header + tail)[4] == Segment(Some(Green), message)
    ensures (header + tail)[5] == Segment(None, " ")
    ensures (header + tail)[6] == Segment(Some(Yellow), ms)
    ensures Plain(header + tail) == Plain(header) + message + " " + ms
  {
    PlainOfThree(tail);
    PlainConcat(header, tail);
    ConcatAssoc(Plain(header), message + " ", ms);
    ConcatAssoc(Plain(header), message, " ");
    assert (header + tail)[..4] == header;
  }

  lemma PlainCons(s: Segment, rest: seq<Segment>)
    ensures Plain([s] + rest) == s.text + Plain(rest)
  {
    assert ([s] + rest)[1..] == rest;
  }

  lemma {:induction false} PlainConcat(a: seq<Segment>, b: seq<Segment>)
    ensures Plain(a + b) == Plain(a) + Plain(b)
    decreases |a|
  {
    if |a| == 0 {
      assert a + b == b;
    } else {
      assert a + b == [a[0]] + (a[1..] + b);
      PlainCons(a[0], a[1..] + b);
      PlainConcat(a[1..], b);
      assert a == [a[0]] + a[1..];
      PlainCons(a[0], a[1..]);
    }
  }

  /** Extending a prefix of a line by one segment appends that segment's text. */
  lemma PlainPrefix(line: seq<Segment>, k: nat)
    requires k < |line|
    ensures Plain(line[..k + 1]) == Plain(line[..k]) + line[k].text
  {
    assert line[..k + 1] == line[..k] + [line[k]];
    PlainConcat(line[..k], [line[k]]);
    assert Plain([line[k]]) == line[k].text + Plain([]);
    assert line[k].text + "" == line[k].text;
  }

  lemma PlainOfFour(line: seq<Segment>)
    requires |line| == 4
    ensures Plain(line) == line[0].text + line[1].text + line[2].text + line[3].text
  {
    assert line[..0] == [];
    assert "" + line[0].text == line[0].text;
    PlainPrefix(line, 0);
    PlainPrefix(line, 1);
    PlainPrefix(line, 2);
    PlainPrefix(line, 3);
    assert line[..4] == line;
  }

  lemma PlainOfThree(line: seq<Segment>)
    requires |line| == 3
    ensures Plain(line) == line[0].text + line[1].text + line[2].text
  {
    assert line[..0] == [];
    assert "" + line[0].text == line[0].text;
    PlainPrefix(line, 0);
    PlainPrefix(line, 1);
    PlainPrefix(line, 2);
    assert line[..3] == line;
  }

  /**
   * `defaultFormat(info)`. The metadata object defaults to `{}`; `getContext` writes
   * `length` into it and picks the context the segment shows.
   */
  method DefaultFormat(cell: StackCell, pid: nat, timestamp: string, level: string,
                       message: string, ms: string, metadata: Option<PlainObject>)
    returns (line: seq<Segment>)
    modifies if metadata.Some? then {metadata.value} else {}
    ensures metadata.Some? ==> metadata.value.fields == WithLength(old(metadata.value.fields))
    ensures line == ConsoleLine(pid, timestamp, level,
      FormatContext(cell, if metadata.Some? then ObjectContext(old(metadata.value.fields)) else ""),
      message, ms)
  {
    var obj: PlainObject;
    if metadata.Some? {
      obj := metadata.value;
    } else {
      obj := new PlainObject(map[]);
    }
    var context := GetContext(ObjectArg(obj));
    line := ConsoleLine(pid, timestamp, level, FormatContext(cell, context), message, ms);
  }

  /** The message handed to the logger: an `Error`, whose `stack` may be missing, or any other value. */
  datatype Message = ErrorMessage(stack: Option<string>) | PlainMessage(value: MetaValue)

  /** `message` is `undefined` or `null`, so reading `message.stack` throws. */
  predicate Nullish(message: Message) {
    message.PlainMessage? && (message.value.MUndefined? || message.value.MNull?)
  }

  /**
   * `${message.stack}` on a message that has properties: the stack text of an
   * `Error`, or `undefined` for an `Error` without one and for any other value.
   */
  function StackText(message: Message): (r: string)
    requires !Nullish(message)
    ensures message.ErrorMessage? && message.stack.Some? ==> r == message.stack.value
    ensures !(message.ErrorMessage? && message.stack.Some?) ==> r == "undefined"
  {
    if message.ErrorMessage? && message.stack.Some? then message.stack.value else "undefined"
  }

  /**
   * The error-file line (:96-101): uncoloured pid, timestamp and level token, the
   * context segment for `info.context` (`''` when absent), and `message.stack`.
   * `None` when `message` is `undefined` or `null`: the template then throws while
   * reading `message.stack`, and no file line is produced.
   */
  function FileLine(cell: StackCell, pid: nat, timestamp: string, level: string,
                    context: string, message: Message): (r: Option<string>)
    reads cell
    ensures r.None? <==> Nullish(message)
  {
    if Nullish(message) then None
    else Some(GetPid(pid) + timestamp + LevelToken(level) + FormatContext(cell, context) + StackText(message))
  }

  /**
   * The file line, when there is one, is the console header uncoloured and then
   * the stack text; an `undefined` or `null` message has none.
   */
  lemma FileLineIsConsoleHeader(cell: StackCell, pid: nat, timestamp: string, level: string,
                                context: string, message: Message)
    ensures Nullish(message) ==> FileLine(cell, pid, timestamp, level, context, message).None?
    ensures !Nullish(message) ==>
      FileLine(cell, pid, timestamp, level, context, message) ==
        Some(Plain(ConsoleHeader(pid, timestamp, level, FormatContext(cell, context))) + StackText(message))
  {
  }

  // ---------------------------------------------------------------------
  // The service and its context-capture rule
  // ---------------------------------------------------------------------

  /** One forwarded call `this.logger.log(level, message, ...meta)`. */
  datatype Emission = Emission(level: string, message: Message, meta: seq<MetaValue>)

  /**
   * The value of `stack` after `printMessage(level, message, ...meta)`: an `Error`
   * has its own stack parsed at the default skip of 1; otherwise, when `meta` names
   * no context, the stack of a fresh `Error` is parsed skipping 3 lines; otherwise
   * `stack` keeps its value.
   */
  function NextStack(current: Option<PartialStack>, message: Message, meta: seq<MetaValue>,
                     freshStack: string): (r: Option<PartialStack>)
    ensures r == current <==>
      (message.ErrorMessage? && current == Some(ParseCallStack(message.stack, 1))) ||
      (message.PlainMessage? && LastString(meta) != "") ||
      (message.PlainMessage? && LastString(meta) == "" && current == Some(ParseCallStack(Some(freshStack), 3)))
    ensures r != current ==> r.Some?
  {
    if message.ErrorMessage? then Some(ParseCallStack(message.stack, 1))
    else if LastString(meta) == "" then Some(ParseCallStack(Some(freshStack), 3))
    else current
  }

  class LoggerService {
    /**
     * The module-level `stack`. The source has one for every instance; here each
     * service is handed the cell it shares, and nothing stops two services from
     * being handed different ones.
     */
    const cell: StackCell
    var options: Option<map<string, MetaValue>>
    /** Every call forwarded to the winston logger `init` built, oldest first. */
    var emitted: seq<Emission>

    constructor(cell: StackCell, options: Option<map<string, MetaValue>>)
      ensures this.cell == cell && this.options == options && emitted == []
    {
      this.cell := cell;
      this.options := options;
      new;
      Init();
    }

    /** `init()`: a new logger that has been handed nothing yet. */
    method Init()
      modifies this
      ensures emitted == [] && options == old(options)
    {
      emitted := [];
    }

    /**
     * `printMessage(level, message, ...meta)`. `freshStack` is the stack text of the
     * `Error` it creates when it needs a call site.
     */
    method PrintMessage(level: string, message: Message, meta: seq<MetaValue>, freshStack: string)
      modifies this, cell
      ensures cell.stack == NextStack(old(cell.stack), message, meta, freshStack)
      ensures emitted == old(emitted) + [Emission(level, message, meta)]
      ensures options == old(options)
    {
      if message.ErrorMessage? {
        cell.stack := Some(ParseCallStack(message.stack, 1));
      } else {
        var context := GetContext(ArrayArg(meta));
        if context == "" {
          cell.stack := Some(ParseCallStack(Some(freshStack), 3));
        }
      }
      emitted := emitted + [Emission(level, message, meta)];
    }

    /** `log(message, ...meta)`: level `'info'`. */
    method Log(message: Message, meta: seq<MetaValue>, freshStack: string)
      modifies this, cell
      ensures cell.stack == NextStack(old(cell.stack), message, [MArray(meta)], freshStack)
      ensures emitted == old(emitted) + [Emission("info", message, [MArray(meta)])]
      ensures options == old(options)
    {
      PrintMessage("info", message, [MArray(meta)], freshStack);
    }

    method Error(message: Message, meta: seq<MetaValue>, freshStack: string)
      modifies this, cell
      ensures cell.stack == NextStack(old(cell.stack), message, [MArray(meta)], freshStack)
      ensures emitted == old(emitted) + [Emission("error", message, [MArray(meta)])]
      ensures options == old(options)
    {
      PrintMessage("error", message, [MArray(meta)], freshStack);
    }

    method Warn(message: Message, meta: seq<MetaValue>, freshStack: string)
      modifies this, cell
      ensures cell.stack == NextStack(old(cell.stack), message, [MArray(meta)], freshStack)
      ensures emitted == old(emitted) + [Emission("warn", message, [MArray(meta)])]
      ensures options == old(options)
    {
      PrintMessage("warn", message, [MArray(meta)], freshStack);
    }

    method Debug(message: Message, meta: seq<MetaValue>, freshStack: string)
      modifies this, cell
      ensures cell.stack == NextStack(old(cell.stack), message, [MArray(meta)], freshStack)
      ensures emitted == old(emitted) + [Emission("debug", message, [MArray(meta)])]
      ensures options == old(options)
    {
      PrintMessage("debug", message, [MArray(meta)], freshStack);
    }

    method Verbose(message: Message, meta: seq<MetaValue>, freshStack: string)
      modifies this, cell
      ensures cell.stack == NextStack(old(cell.stack), message, [MArray(meta)], freshStack)
      ensures emitted == old(emitted) + [Emission("verbose", message, [MArray(meta)])]
      ensures options == old(options)
    {
      PrintMessage("verbose", message, [MArray(meta)], freshStack);
    }

    method Fatal(message: Message, meta: seq<MetaValue>, freshStack: string)
      modifies this, cell
      ensures cell.stack == NextStack(old(cell.stack), message, [MArray(meta)], freshStack)
      ensures emitted == old(emitted) + [Emission("fatal", message, [MArray(meta)])]
      ensures options == old(options)
    {
      PrintMessage("fatal", message, [MArray(meta)], freshStack);
    }
  }

  // ---------------------------------------------------------------------
  // Properties of the capture rule
  // ---------------------------------------------------------------------

  /**
   * Through the six service methods `meta` arrives wrapped in one array, so its last
   * element is never a string: every call replaces `stack`, and the value it had
   * before never matters.
   */
  lemma LevelCallAlwaysCaptures(current: Option<PartialStack>, message: Message,
                                meta: seq<MetaValue>, freshStack: string)
    ensures NextStack(current, message, [MArray(meta)], freshStack) ==
      Some(if message.ErrorMessage? then ParseCallStack(message.stack, 1)
           else ParseCallStack(Some(freshStack), 3))
  {
    assert [MArray(meta)][0].MArray?;
  }

  /**
   * `warn(text, name)`, as in `warn('x', 'MyContext')`: the call still captures a
   * frame from the fresh `Error`, and the console line still shows ` [name] `,
   * because the context the format reads comes from `info.metadata`, not from the cell.
   */
  method WarnWithStringContext(cell: StackCell, logger: LoggerService, text: string,
                               name: string, freshStack: string)
    returns (consoleContext: string)
    requires logger.cell == cell && name != ""
    modifies logger, cell
    ensures cell.stack == Some(ParseCallStack(Some(freshStack), 3))
    ensures consoleContext == " [" + name + "] "
  {
    var meta := [MString(name)];
    logger.Warn(PlainMessage(MString(text)), meta, freshStack);
    LevelCallAlwaysCaptures(old(cell.stack), PlainMessage(MString(text)), meta, freshStack);
    var metadata := new PlainObject(IndexKeys(meta));
    var context := GetContext(ObjectArg(metadata));
    ConsoleContextIsLastString(meta);
    consoleContext := FormatContext(cell, context);
  }

  /**
   * The ordering hazard: `stack` holds only the frame of the latest call, so a record
   * formatted after a later call reads that later call's frame, whatever the earlier
   * call stored.
   */
  lemma LastCallerWins(current: Option<PartialStack>, first: Message, firstMeta: seq<MetaValue>,
                       firstFresh: string, second: Message, secondMeta: seq<MetaValue>,
                       secondFresh: string)
    ensures NextStack(NextStack(current, first, [MArray(firstMeta)], firstFresh),
                      second, [MArray(secondMeta)], secondFresh) ==
            NextStack(None, second, [MArray(secondMeta)], secondFresh)
  {
    LevelCallAlwaysCaptures(NextStack(current, first, [MArray(firstMeta)], firstFresh),
      second, secondMeta, secondFresh);
    LevelCallAlwaysCaptures(None, second, secondMeta, secondFresh);
  }
}
