# Logging core of nest-quick-server, modelled in Dafny

The model covers the two parts of the service's logger that have behaviour you can state.

The first is the stack-line parser `parseCallStack`:

- It splits an error's stack text on `'\n'` and drops the first `skip` lines.
- It matches the next line against
  `^\s*at (?:(.+) \()?([^(]+?):(\d+):(\d+)\)?$`.
- It reads the file, line, column and caller names out of the match.
- It returns `{}` on any failure.

The second is the `LoggerService` with its helpers:

- `getContext`, which writes `length` into a plain-object argument;
- the renderers `getPid`, `formatLevel`, `formatContext`, the level token and its colour, the console line of `defaultFormat`, and the error-file line;
- the module-level `stack` cell, which `printMessage` overwrites and `formatContext` reads back.

Files:

- `wrappers.dfy`: `Option`.
- `js_strings.dfy`: the JavaScript string operations the code relies on:
  - the `\s`, `\d` and `.` classes;
  - `indexOf` / `lastIndexOf` and `split` / `join` with a string separator;
  - `replace(/[[\]]/g, '')`, `toUpperCase`, `padStart`;
  - `parseInt(_, 10)` and the decimal text of a number.
- `stack_pattern.dfy`: the stack-line pattern. It is written out as a matcher, `MatchLine`, plus a reference description of the lines the pattern accepts (`Compose` of a `WellFormed` match). Proved: the matcher accepts exactly those lines and returns exactly their pieces, so a match is unique.
- `parse_stack.dfy`: the `Stack` record and `ParseCallStack`. `Partial<Stack>` is `Option<Stack>`, with `None` for `{}`.
- `logger.dfy`: metadata values, `GetContext`, the renderers, the `StackCell` class for the module variable `stack`, and the `LoggerService` class. The service records each call it forwards to winston as an `Emission`.

The code and the system's documented behaviour disagree in one place. The documentation says `warn('x', 'MyContext')` captures no new stack frame, because the trailing string is an explicit context. The code as written does capture one:

- `warn` hands `meta` to `printMessage` as a single array argument (logger.service.ts:126-128).
- So `printMessage` sees an array as the last element, and `getContext` returns `''` (logger.service.ts:151-159).

The model follows the code:

- `Logger.LevelCallAlwaysCaptures` proves that every level-method call replaces `stack`.
- `Logger.WarnWithStringContext` states the example for any non-empty context name. The frame is captured, and the console still shows ` [MyContext] `, because the console takes its context from winston's metadata object.

## Model

| member | source | states |
|---|---|---|
| `StackPattern.MatchLine` | src/shared/utils/parseStack.ts:1 | every line the pattern matches is a well-formed `at` line (whitespace indent, optional caller followed by ` (`, a file part without `(`, two digit runs, optional `)`), and its groups rebuild the line |
| `StackPattern.MatchLineComplete` | src/shared/utils/parseStack.ts:1 | every well-formed line is matched, with exactly the groups it was built from |
| `StackPattern.ComposeInjective` | src/shared/utils/parseStack.ts:1 | the groups of a match are unique: two well-formed matches spelling the same line are equal |
| `StackPattern.MatchCallerSound` | src/shared/utils/parseStack.ts:1 | the caller group ends just before the last `(`, which follows a space; the text left for the location has no `(` |
| `StackPattern.MatchCallerComplete` | src/shared/utils/parseStack.ts:1 | a caller without line terminators followed by ` (` and a `(`-free tail is split back into exactly that caller and tail |
| `StackPattern.MatchLocationSound` | src/shared/utils/parseStack.ts:1 | `([^(]+?):(\d+):(\d+)\)?$` yields a non-empty `(`-free file and two non-empty digit runs that rebuild the tail |
| `StackPattern.MatchLocationComplete` | src/shared/utils/parseStack.ts:1 | every well-formed location tail is matched back to its own pieces |
| `StackPattern.MatchPrefixSound` | src/shared/utils/parseStack.ts:1 | `^\s*at ` takes a whitespace-only indent followed by `at ` |
| `StackPattern.MatchPrefixComplete` | src/shared/utils/parseStack.ts:1 | the greedy `\s*` takes exactly the indent when `at ` follows it |
| `StackPattern.TrailingNumberComplete` | src/shared/utils/parseStack.ts:1 | `x:<digits>` splits at the colon before the maximal trailing digit run |
| `ParseStack.ParseCallStack` | src/shared/utils/parseStack.ts:14-46 | a frame comes back only when the stack text exists, has a line at index `skip`, and that line matches the pattern; its file name is then non-empty and has no `(` |
| `ParseStack.FrameOf` | src/shared/utils/parseStack.ts:33-42 | the returned record has a non-empty, `(`-free file name and dot-free class and function names; with no caller group, every name field is `''` |
| `ParseStack.ParseLines` | src/shared/utils/parseStack.ts:20-43 | a frame comes back only when there is a first line and it matches; `callStack` is all the remaining lines re-joined with `'\n'`; the file name is non-empty and `(`-free |
| `ParseStack.UndefinedNeverMatches` | src/shared/utils/parseStack.ts:20 | when no line is left, `exec(undefined)` reads the text `undefined`, which never matches |
| `ParseStack.ParseSucceedsIff` | src/shared/utils/parseStack.ts:18-21 | a frame is returned exactly when the stack text exists, has a line at index `skip`, and that line matches; otherwise the result is `{}` |
| `ParseStack.ParsedFrameShape` | src/shared/utils/parseStack.ts:34-36 | a returned frame's file name is non-empty and has no `(`; its line and column numbers are the decimal values of the two digit groups of the examined line |
| `ParseStack.CallStackIsRest` | src/shared/utils/parseStack.ts:37 | `callStack` is the lines from index `skip` on, re-joined with `'\n'`; the dropped lines, a newline and `callStack` give back the whole text |
| `ParseStack.EarlierLinesIgnored` | src/shared/utils/parseStack.ts:16-20 | lines in front of the examined one never affect the result: prefixing any newline-free lines and skipping that many more gives the same record |
| `ParseStack.ParseFrameLine` | src/shared/utils/parseStack.ts:33-42 | for a well-formed line at index `skip`, every field of the record is the corresponding piece of the line; with no caller group, the class, function, alias and caller names are all `''` |
| `ParseStack.ParseFrameLineValue` | src/shared/utils/parseStack.ts:33-42 | the same result stated as one record built from the match and the remaining lines |
| `ParseStack.CallerParts` | src/shared/utils/parseStack.ts:25-31 | the class and function names read out of any caller group never contain a dot: `split('.')` keeps only the first two segments |
| `ParseStack.ClassAndFunction` | src/shared/utils/parseStack.ts:30-31 | neither the class nor the function name taken from a name contains a dot |
| `ParseStack.CallerPartsPlain` | src/shared/utils/parseStack.ts:25-31 | a caller without brackets, dots or any ` as ` (spaces allowed, as in `new Foo`) is the function name; class and alias are `''` |
| `ParseStack.CallerPartsDotted` | src/shared/utils/parseStack.ts:25-31 | a dotted name without brackets or ` as ` (spaces allowed, as in `new Foo.bar`) gives the segment before the first dot as class and the next segment as function; anything from a second dot on is dropped |
| `ParseStack.CallerPartsAlias` | src/shared/utils/parseStack.ts:25-31 | in `name [as alias]`, with bracket-free parts, the first ` as ` between them and none inside the alias, the brackets are deleted, the text after ` as ` is the alias, and class and function come from the name alone |
| `ParseStack.NameWithAlias` | src/shared/utils/parseStack.ts:26-29 | when the first ` as ` is the one between name and alias and the alias has no other, bracket removal and the split on ` as ` give exactly the name and the alias; spaces elsewhere are allowed |
| `ParseStack.NameWithoutAlias` | src/shared/utils/parseStack.ts:26-29 | a bracket-free caller in which ` as ` does not occur is all name, and the alias is `''` |
| `ParseStack.NameAndAlias` | src/shared/utils/parseStack.ts:26-29 | neither the name nor the alias read out of the bracket-free caller contains ` as `; when the bracket-free caller has no ` as `, it is all name and the alias is `''` |
| `ParseStack.UndottedName` | src/shared/utils/parseStack.ts:30 | a name without a dot is not split: the class is `''` and the whole name is the function |
| `ParseStack.DottedName` | src/shared/utils/parseStack.ts:30-31 | `split('.')` keeps the first two segments of a dotted name as class and function |
| `ParseStack.ConstructorNames` | src/shared/utils/parseStack.ts:25-31 | the constructor caller `new Foo` is all function name, with class and alias `''` |
| `ParseStack.ClassMethodFrame` | src/shared/utils/parseStack.ts:14-46 | `Error\n    at Foo.bar (file.js:10:5)` at skip 1 gives `file.js`, 10, 5, class `Foo`, function `bar`, alias `''` and caller `Foo.bar` |
| `ParseStack.AnonymousFrame` | src/shared/utils/parseStack.ts:22-25 | `    at /app/main.js:7:3` at skip 0 gives the file, 7, 3 and empty name fields |
| `JsStrings.Join` | src/shared/utils/parseStack.ts:37 | the joined text starts with the first piece; `JoinSplit` shows it inverts `split` |
| `JsStrings.JoinSplit` | src/shared/utils/parseStack.ts:37 | `split(sep).join(sep)` gives back the text, for every non-empty separator |
| `JsStrings.SplitJoinedPrefix` | src/shared/utils/parseStack.ts:19 | splitting lines joined in front of a text returns those lines, then the split of the text |
| `JsStrings.Split` | src/shared/utils/parseStack.ts:19 | `split` with a non-empty separator always returns at least one piece |
| `JsStrings.IndexOfFrom` | src/shared/utils/parseStack.ts:28 | the search returns the first occurrence at or after the start, or none when there is no occurrence |
| `JsStrings.LastIndexOf` | src/shared/utils/parseStack.ts:1 | the last position holding the character, or none when it does not occur |
| `JsStrings.LeadingWhitespace` | src/shared/utils/parseStack.ts:1 | the longest whitespace prefix: everything before it is `\s` and the next character is not |
| `JsStrings.TrailingDigits` | src/shared/utils/parseStack.ts:1 | the longest digit suffix: everything in it is `\d` and the character before it is not |
| `JsStrings.RemoveBrackets` | src/shared/utils/parseStack.ts:27 | the result has no `[` or `]`, is never longer, and is the text itself when there were no brackets |
| `JsStrings.RemoveBracketsKeeps` | src/shared/utils/parseStack.ts:27 | every character other than `[` and `]` is kept exactly as often as the text has it |
| `JsStrings.RemoveBracketsConcat` | src/shared/utils/parseStack.ts:27 | deleting brackets works piecewise, so the kept characters stay in their order |
| `JsStrings.DecimalValue` | src/shared/utils/parseStack.ts:35-36 | `parseInt(d, 10)` of a digit run has the last digit as its units digit; `NatToDecimal` shows it reads back every number's decimal text |
| `JsStrings.DecimalZero` | src/shared/utils/parseStack.ts:35-36 | a digit run reads as zero exactly when every digit is `0` |
| `JsStrings.NatToDecimal` | src/shared/logger/logger.service.ts:27 | the decimal text of a number is a non-empty digit run without a leading zero, and `parseInt` of it returns the number |
| `JsStrings.PadStart` | src/shared/logger/logger.service.ts:36 | `padStart(w, ' ')` has length `max(w, n)`, ends with the text, and is spaces before it |
| `JsStrings.ToUpper` | src/shared/logger/logger.service.ts:33 | `toUpperCase` keeps the length, maps each ASCII `a`-`z` to its capital and keeps every other character |
| `Logger.LastString` | src/shared/logger/logger.service.ts:22-23 | a string last element is the result; an empty list or a non-string last element gives `''` |
| `Logger.LastStringAppended` | src/shared/logger/logger.service.ts:22-23 | after appending a value, the context is that value if it is a string and `''` otherwise |
| `Logger.WithLength` | src/shared/logger/logger.service.ts:19 | writing `length` sets that key, adding it if it was missing, to the number of keys before, and keeps every other property |
| `Logger.ArrayFrom` | src/shared/logger/logger.service.ts:20 | `Array.from` of an object with length `n` has `n` elements, the value under key `"i"` at index `i` or `undefined` where the key is missing |
| `Logger.ObjectContext` | src/shared/logger/logger.service.ts:18-22 | a non-empty context of a plain object with `n` keys is the string stored under key `"n-1"` |
| `Logger.GetContext` | src/shared/logger/logger.service.ts:17-24 | an array's context is its last element if that is a string, else `''`; a plain object gets `length` set to its key count and is read as an array of that length |
| `Logger.ArrayFromWithLength` | src/shared/logger/logger.service.ts:19-20 | writing `length` never changes what `Array.from` reads, since no index key is `length` |
| `Logger.ObjectContextLastKey` | src/shared/logger/logger.service.ts:18-22 | for a plain object with `n` keys, the context is the string under key `n-1`, and `''` when that key is missing, holds a non-string, or `n` is 0 |
| `Logger.RequestIdMetaHasNoContext` | src/shared/logger/logger.service.ts:31-32 | `warn('x', {requestId: 'r1'})` names no context on the console: the metadata object's last element is an object, not a string |
| `Logger.RequestIdObjectHasNoContext` | src/shared/logger/logger.service.ts:17-24 | `{requestId: 'r1'}` handed to `getContext` as it is names no context (no log path does this; see `RequestIdMetaHasNoContext`) |
| `Logger.IndexKeys` | src/shared/logger/logger.service.ts:31-32 | the metadata object built from a forwarded array has exactly the keys `"0"` to `"n-1"`, mapping each index to its element |
| `Logger.ConsoleContextIsLastString` | src/shared/logger/logger.service.ts:31-32 | the console's context for a level call is the last element of the caller's `meta` when that is a string |
| `Logger.GetPid` | src/shared/logger/logger.service.ts:26-28 | the pid prefix is `[Nest] `, the pid in decimal, then two spaces, a dash and a space; the digits read back as the pid |
| `Logger.LevelShader` | src/shared/logger/logger.service.ts:52-57 | the table has an entry exactly for VERBOSE, DEBUG, WARN and ERROR |
| `Logger.Shader` | src/shared/logger/logger.service.ts:52-57 | a level has its own colour exactly when it is VERBOSE, DEBUG, WARN or ERROR; every other level is bold |
| `Logger.ServiceLevelShaders` | src/shared/logger/logger.service.ts:33-34 | verbose is cyan, debug magenta, warn yellow, error red, and info and fatal bold |
| `Logger.LevelToken` | src/shared/logger/logger.service.ts:36 | the level token is the upper-cased level, left-padded with spaces to width 7 and never cut: its length is `max(7, n)` |
| `Logger.FormatLevel` | src/shared/logger/logger.service.ts:58-60 | `' ' + level + ' '` left-padded with spaces to width 7, never cut |
| `Logger.FormatContext` | src/shared/logger/logger.service.ts:61-68 | the context segment is empty exactly when there is no context and `stack` was never assigned |
| `Logger.ExplicitContextShown` | src/shared/logger/logger.service.ts:62-64 | a non-empty context is shown as ` [context] `, whatever the cell holds |
| `Logger.EmptyFrameRendersUndefined` | src/shared/logger/logger.service.ts:65-67 | once `stack` holds `{}`, the segment is ` [undefined method: undefined] ` |
| `Logger.StoredFrameRendersNames` | src/shared/logger/logger.service.ts:66 | a stored frame shows its class and function names, even when they are `''` |
| `Logger.ConsoleHeader` | src/shared/logger/logger.service.ts:34-37 | the header is the green pid prefix, the uncoloured timestamp, the level token in the level's shader colour, and the green context segment; without colours it reads in that order |
| `Logger.ConsoleLine` | src/shared/logger/logger.service.ts:35-37 | the console line is the four header segments, then the green message, an uncoloured space and the yellow `ms`; without colours it reads pid prefix, timestamp, level token, context segment, message, space, `ms` |
| `Logger.DefaultFormat` | src/shared/logger/logger.service.ts:30-38 | the line shows the context `getContext` finds in the metadata (`{}` when absent); the metadata object gets its `length` written |
| `Logger.FileLine` | src/shared/logger/logger.service.ts:96-101 | no file line exists exactly when the message is `undefined` or `null`, where reading `message.stack` throws |
| `Logger.StackText` | src/shared/logger/logger.service.ts:100 | `message.stack` is an Error's stack text, and `undefined` for an Error without one and for any other non-nullish value |
| `Logger.FileLineIsConsoleHeader` | src/shared/logger/logger.service.ts:96-101 | for a message that is not `undefined` or `null`, the error-file line is the uncoloured console header followed by `message.stack`; for those two there is none |
| `Logger.StackCell.constructor` | src/shared/logger/logger.service.ts:15 | `stack` starts out unassigned |
| `Logger.LoggerService.constructor` | src/shared/logger/logger.service.ts:77-80 | stores the options and runs `init` |
| `Logger.LoggerService.Init` | src/shared/logger/logger.service.ts:82-107 | a new logger that has been handed nothing yet |
| `Logger.LoggerService.PrintMessage` | src/shared/logger/logger.service.ts:151-162 | an Error replaces `stack` by the parse of its own stack at skip 1; a call whose meta names no context replaces it by the parse of a fresh stack at skip 3; otherwise `stack` is kept; the call is forwarded exactly once, with the same level, message and meta |
| `Logger.LoggerService.Log` | src/shared/logger/logger.service.ts:112-114 | forwards at level `info`, with `meta` wrapped as one array |
| `Logger.LoggerService.Error` | src/shared/logger/logger.service.ts:119-121 | forwards at level `error`, with `meta` wrapped as one array |
| `Logger.LoggerService.Warn` | src/shared/logger/logger.service.ts:126-128 | forwards at level `warn`, with `meta` wrapped as one array |
| `Logger.LoggerService.Debug` | src/shared/logger/logger.service.ts:133-135 | forwards at level `debug`, with `meta` wrapped as one array |
| `Logger.LoggerService.Verbose` | src/shared/logger/logger.service.ts:140-142 | forwards at level `verbose`, with `meta` wrapped as one array |
| `Logger.LoggerService.Fatal` | src/shared/logger/logger.service.ts:147-149 | forwards at level `fatal`, with `meta` wrapped as one array |
| `Logger.NextStack` | src/shared/logger/logger.service.ts:151-160 | `stack` keeps its value exactly when a non-Error call names a context, or when the new parse equals the old value; any change is an assignment |
| `Logger.LevelCallAlwaysCaptures` | src/shared/logger/logger.service.ts:157 | through the level methods the last meta element is an array, so every call replaces `stack`, whatever it held before |
| `Logger.WarnWithStringContext` | src/shared/logger/logger.service.ts:126-128 | `warn(text, name)` with a non-empty string `name`, as in `warn('x', 'MyContext')`, captures the caller's frame, and the console segment is ` [name] ` |
| `Logger.LastCallerWins` | src/shared/logger/logger.service.ts:15 | the cell holds only the latest call's frame: after two level calls it is what the second alone would have stored |

## Left out

- Winston and logform do the transport and formatting plumbing, and the model leaves them out: `createLogger`, the console and daily-rotate transports, level thresholds, rotation by size and age, `format.combine`, `format.ms` and `format.timestamp`. A forwarded call is recorded as an `Emission`. The format functions take the fields of the record winston builds from it as parameters: the level, the message text, `ms`, the timestamp and the metadata object.
- `Logger.DefaultFormat`: the `message` parameter is the text that `green(message)` prints. The level methods accept any value, so an `Error` or another non-string value can arrive there; how the colour wrapper turns such a value into text is not modelled.
- `Logger.IndexKeys` stands for the metadata object winston builds from the forwarded array. That behaviour belongs to winston, not to this repository. It assumes a message without printf-style tokens, because winston handles those differently.
- ANSI colour codes: each colour is a `Style` tag on a segment, and `Plain` drops the tags.
- `getTimestamp`, `process.pid` and the `ms` field are parameters. The model does not read a clock or the process.
- The text V8 writes into `Error.stack` is an input. That includes the stack of the fresh `Error` that `printMessage` creates.
- NestJS wiring is not part of this model: the module, the middleware, the interceptor, the controller and the constants file.
- `JsStrings.ToUpper`: upper-cases only ASCII `a`-`z`, so the full Unicode case mapping of `toUpperCase` is not modelled; some non-ASCII letters map into ASCII (`'verboſe'.toUpperCase()` is `'VERBOSE'`), and the model does not reflect that. Only the six ASCII level names the service passes (`info`, `error`, `warn`, `debug`, `verbose`, `fatal`) reach the format, and for ASCII text the two mappings agree.
- `ParseStack.ParseCallStack`: the numbers are unbounded naturals. `parseInt` loses precision above 2^53, which the model does not reflect.
- Strings are sequences of characters. JavaScript indexes UTF-16 code units, and the difference between the two is not modelled.
- The file sink's `info.context` is modelled as `''` when absent. Both values are falsy, so `formatContext` treats them the same.
- Calling `getContext` on `null` or `undefined` throws, and that case is not modelled. Neither log path passes such a value.
- An `undefined` or `null` message makes the file format throw, and `Logger.FileLine` gives no line for it. What winston then does with the exception, and whether the console line is still written, is winston's behaviour and is not modelled.
- The module variable `stack` is one `StackCell` that each `LoggerService` is given when it is built. The source has exactly one such variable for all instances. The model does not enforce that every service holds the same cell; the lemmas about sharing assume they do.
- A message is either an Error with an optional `stack` text, or a plain value. A non-Error object that happens to carry a `stack` property is treated as having none.
- Concurrency: the code has none. The ordering hazard of the shared cell is stated for sequential calls with `Logger.LastCallerWins`.
