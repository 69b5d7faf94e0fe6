# MapForce automation helpers, modelled in Dafny

The repository drives a desktop data-mapping application through its COM
automation interface. `MappingExecution.ExecuteMap` opens a mapping document,
picks the first source and first target component of the main mapping,
rebinds their input and output files, runs the transformation and prints the
result messages. Blocking automation calls run on a worker thread while the
caller polls for modal popups and closes them.

This project models the parts of `MapForceApi/MappingExecution.cs` that are
plain logic once the COM objects become Dafny values:

- `Components` (components.dfy): `Component` is a class whose name, usage
  kind and connection flags are read-only and whose bound input and output
  files can be changed. `FindComponent`, `GetFirstSourceComponent` and
  `GetFirstTargetComponent` are loop methods. Each is proved equal to the
  specification function `Select`, which returns the first match in sequence order
  or the "instance not found" error with the source's exact message.
- `TextReplace` (text_replace.dfy): ordinal, left-to-right, non-overlapping
  `String.Replace`.
- `OutputFormatting` (output_formatting.dfy): the tree of output lines,
  `IndentTextLines`, and the full-text and result-message strings. All three
  are functions. The full-text and result-message loops are also loop methods
  proved equal to their functions. An independent description, the preorder
  list of line texts, is tied to the formatted strings by lemmas.
- `PopupWatchdog` (popup_watchdog.dfy): the close decision of each poll, run
  over a finite trace of the handles that `GetLastActivePopup` returned.
- `MappingExecution` (mapping_execution.dfy): the error-code display
  (`HResult & 0xffff`), the file rebinding, and `ExecuteMap` from the opened
  document to the printed summary.

Behaviour worth knowing, modelled as the code has it:

- `IndentTextLines` uses verbatim strings on both sides of its replacement. It
  replaces the two characters backslash, `n` with the four characters
  backslash, `n`, backslash, `t`. It does not touch the newline character,
  and it inserts no tab character except the leading one. So the newlines
  inside a child's full text get no extra tab. A grandchild line is indented
  by one tab, the same as its parent (`GrandchildSharesChildIndent`). A
  backslash-n written inside a line text gains a backslash-t after it
  (`EscapedNewlineIsIndented`).
- The poll loop compares the popup handle only with the main window handle.
  There is no null check, so a null handle (0) is also sent a close command
  (`NullHandleIsSentClose`).
- The source and the target component may be the same object. The rebinding
  then sets both of its files.

## Model

| member | source | states |
|---|---|---|
| Components.FirstMatch | MapForceApi/MappingExecution.cs:152-158 | the index returned holds a match and no earlier index does; no index is returned exactly when no component matches |
| Components.Select | MapForceApi/MappingExecution.cs:150-193 | a search returns the first matching component in sequence order; it returns the not-found error, with that search's message, exactly when nothing matches |
| Components.FirstMatchIndex | MapForceApi/MappingExecution.cs:152-160 | the foreach loop with early return finds the same index as the first-match specification |
| Components.FindComponent | MapForceApi/MappingExecution.cs:150-161 | returns the first component whose name equals the query; throws "Cannot find component with name " + name exactly when no component has that name |
| Components.GetFirstSourceComponent | MapForceApi/MappingExecution.cs:165-177 | returns the first instance component with outgoing connections, no earlier one qualifies; throws "Cannot find a source component" exactly when none qualifies |
| Components.GetFirstTargetComponent | MapForceApi/MappingExecution.cs:181-193 | returns the first instance component with incoming connections, no earlier one qualifies; throws "Cannot find a target component" exactly when none qualifies |
| Components.SelectIgnoresSuffix | MapForceApi/MappingExecution.cs:152-158 | once a match exists, components after it never change the result of a search |
| TextReplace.Replace | MapForceApi/MappingExecution.cs:197 | a replacement at least as long as the pattern never shortens the text, one of equal length keeps its length, and one starting with the pattern's first character keeps the text's first character |
| OutputFormatting.IndentTextLines | MapForceApi/MappingExecution.cs:195-198 | the indented text is never empty and starts with a tab character |
| OutputFormatting.IndentTextLinesLength | MapForceApi/MappingExecution.cs:195-198 | the indented text is 1 + the original length + 2 per backslash-n pair: the tab plus a backslash-t for each pair |
| OutputFormatting.IndentTextLinesWithoutEscapes | MapForceApi/MappingExecution.cs:195-198 | a text with no backslash-n pair is returned with only a leading tab added, even if it holds newline characters |
| OutputFormatting.IndentTextLinesRoundTrip | MapForceApi/MappingExecution.cs:195-198 | dropping the leading tab and turning each backslash-n-backslash-t back into backslash-n gives back the original text |
| OutputFormatting.IndentTextLinesAtFirstEscape | MapForceApi/MappingExecution.cs:195-198 | what is inserted: a leading tab; the text up to the first backslash-n is copied unchanged, that pair becomes backslash-n-backslash-t, and the rest is scanned the same way |
| OutputFormatting.EscapedNewlineIsIndented | MapForceApi/MappingExecution.cs:197 | the text x, backslash, n, y becomes tab, x, backslash, n, backslash, t, y |
| OutputFormatting.FullTextBeginsWithText | MapForceApi/MappingExecution.cs:200-211 | the full text begins with the line's own text and is exactly that text when the line has no children |
| OutputFormatting.ChildrenTextConcat | MapForceApi/MappingExecution.cs:204-208 | the children's part is the concatenation of each child's part, in child order |
| OutputFormatting.FullTextFirstChild | MapForceApi/MappingExecution.cs:202-208 | the first child follows the parent's text as a newline plus its indented full text, before the later children |
| OutputFormatting.GetAppoutputLineFullText | MapForceApi/MappingExecution.cs:200-211 | the recursive method with its += loop over the children computes the full text |
| OutputFormatting.FullTextOutline | MapForceApi/MappingExecution.cs:200-211 | when no line text in the tree holds a backslash-n pair, the full text is the line's text followed by every descendant's text in preorder, each on a new line after exactly one tab, whatever its depth |
| OutputFormatting.ForestOutline | MapForceApi/MappingExecution.cs:204-208 | under the same condition, the children's part is every descendant's text in preorder, each after a newline and one tab |
| OutputFormatting.GrandchildSharesChildIndent | MapForceApi/MappingExecution.cs:195-208 | in a three-level tree a, b, c the full text is "a", newline, tab, "b", newline, tab, "c": the grandchild gets no second tab |
| OutputFormatting.GetResultMessagesString | MapForceApi/MappingExecution.cs:213-224 | the accumulating loop computes the header followed by each line's full text and a newline |
| OutputFormatting.ResultMessagesStartsWithHeader | MapForceApi/MappingExecution.cs:216 | the result string starts with "Transformation result messages:" and a newline; for no lines it is only that header |
| OutputFormatting.MessagesBodyConcat | MapForceApi/MappingExecution.cs:217-221 | each top-level line contributes its part independently, in order |
| OutputFormatting.MessagesBodyOutline | MapForceApi/MappingExecution.cs:217-221 | under the same condition, the part after the header is, for each top-level line, its text, each descendant's text after a newline and one tab, and a newline |
| OutputFormatting.ResultMessagesOutline | MapForceApi/MappingExecution.cs:213-224 | when no line text holds a backslash-n pair, the result string is the header followed by, for each top-level line in order, its text, every descendant's text on a new line after one tab, and a newline |
| PopupWatchdog.PollMessages | MapForceApi/MappingExecution.cs:119-125 | one poll sends at most one message; any message is a close command to the polled handle, never to the main window; a close command is sent exactly when the handle differs from the main window |
| PopupWatchdog.ShutDownPopups | MapForceApi/MappingExecution.cs:117-126 | the poll loop sends exactly the messages of the per-poll decision: only close commands, never to the main window, only to observed handles, and to every observed handle other than the main window |
| PopupWatchdog.NeverClosesMainWindow | MapForceApi/MappingExecution.cs:121-125 | every message sent over any trace is WM_SYSCOMMAND/SC_CLOSE to an observed handle other than the main window |
| PopupWatchdog.EveryPopupIsClosed | MapForceApi/MappingExecution.cs:119-125 | every poll that saw a handle other than the main window sends that handle a close command |
| PopupWatchdog.SentMessagesConcat | MapForceApi/MappingExecution.cs:117-126 | polls are independent: the messages of two traces in a row are the messages of each, in order |
| PopupWatchdog.NothingSentIffNoPopup | MapForceApi/MappingExecution.cs:119-125 | no message is sent exactly when every poll returned the main window handle |
| PopupWatchdog.NullHandleIsSentClose | MapForceApi/MappingExecution.cs:119-125 | a null handle returned by the query is sent a close command, because there is no null check |
| MappingExecution.ErrorCode | MapForceApi/MappingExecution.cs:137 | the displayed error code is at most 0xffff |
| MappingExecution.ErrorCodeIsLowBits | MapForceApi/MappingExecution.cs:137 | the displayed error code is the HResult modulo 2^16 |
| MappingExecution.RebindFiles | MapForceApi/MappingExecution.cs:70-79 | the source's input file becomes inputFile and the target's output file becomes outputFile, each only when that path is neither null nor empty; otherwise it is unchanged |
| MappingExecution.ExecuteMap | MapForceApi/MappingExecution.cs:58-104 | without a document nothing happens; a missing source, and otherwise a missing target, is reported as "Failure" with the lookup error and changes nothing; otherwise only the first source's input file and the first target's output file are rebound, and the summary is "Transformation result: " followed by the result message string |

## Left out

- Starting or attaching to the application, `OpenDocument` and `GenerateOutputEx`: these are calls into the automation library. The opened document is a parameter, with None when opening failed. The returned messages are a parameter too.
- The worker thread, `Thread.Sleep(1000)`, the `IsAlive` check and `Join`: this is concurrency and timing. The poll loop is modelled over a finite trace of query results, one per iteration while the worker is alive. Termination of the real loop depends on the worker and is not modelled.
- `GetLastActivePopup`, `SendMessage` and `GetLastError` are operating-system calls. Handles are integers. A sent message is recorded as a value.
- `Dispose`: it closes the main window through an operating-system call.
- Console output in `ExecuteMap` and `Error`, and the formatting of exception objects: these are I/O. `ExecuteMap` returns the summary or the failure it would print.
- The `DEBUG_TRANSFORMATION` branches: they make the same calls without the watchdog.
- An exception thrown by `GenerateOutputEx` on the worker thread is not caught there and is not modelled. The same holds for COM faults raised when a component's file property is set.
- MapForceApi/Program.cs: it only builds example paths, checks them with `Debug.Assert` and calls `ExecuteMap` twice.
- The main window handle is one parameter for the whole trace. The source reads `mapforce.WindowHandle` again at each poll, once for the query and once for the comparison. The model assumes both reads give the same value throughout.
- Strings are sequences of Dafny `char`, which are Unicode scalar values. A C# string is a sequence of UTF-16 code units. No text handled here depends on the difference.
- MappingExecution.ErrorCode: it takes HResult as its 32-bit two's-complement bit pattern (`bv32`), not as a signed `int`.
