# DirectLine console client: text layer

A model of the text handling of a console chat client for the Bot Framework
Direct Line relay. The client reads chunks typed at a `Command> ` prompt and
posts each as a message activity. It receives batches of activities pushed on a
WebSocket stream, drops the echoes of its own messages, and prints the rest:
their text, a notice for PNG images, and hero cards laid out as a bordered,
centred 70-column text block.

Everything is a pure function from inputs to an `Output`: the sequence of
events the client performs (`Log` of a line, `ClearLine`, `Prompt`,
`OpenViewer`, `Post`, `Exit`) together with the exception, if any, that stopped
it. A JavaScript exception does not undo what was already printed, so a card
whose title is missing still leaves its top border on the screen.

Modules, one per concern:

- `JsRuntime` (`js_runtime.dfy`): the ECMAScript built-ins the client relies on.
  It covers `trim` over the exact WhiteSpace and LineTerminator set, ASCII
  lower-casing, and `repeat` with its truncation of the count and its
  RangeError.
- `Activities` (`activities.dfy`): activities, attachments, output events and
  `forEach` with exceptions.
- `HeroCards` (`hero_card.dfy`): `renderHeroCard` and its `contentLine` helper.
- `Rendering` (`rendering.dfy`): `printMessage` and `printMessages`, including
  echo suppression.
- `ConsoleInput` (`console_input.dfy`): the standard-input listener.

Facts about the code that shape the model:

- The client renders only hero cards (`application/vnd.microsoft.card.hero`)
  and PNG images. It has no thumbnail cards and no button-list layout.
- It posts the trimmed input.
- The repeat count `(70 - length) / 2` is truncated toward zero, so a
  71-character title gets no padding and does not throw.
- A `from`, card `content`, `title` or `text` that is missing makes the code
  throw a TypeError. A title or text of 72 characters or more makes it throw a
  RangeError. The model keeps these exceptions.

## Model

| member | source | states |
|---|---|---|
| JsRuntime.LeadingSpaces | app.js:53 | Counts the whitespace that starts the input: every counted character is whitespace and the next one, if any, is not |
| JsRuntime.TrailingSpaces | app.js:53 | Counts the whitespace that ends the input: every counted character is whitespace and the one before them, if any, is not |
| JsRuntime.Trim | app.js:53 | `trim()` returns a slice of the input with only whitespace on either side, and that slice neither starts nor ends with whitespace |
| JsRuntime.TrimUnique | app.js:53 | Only one string is a trim of the input in that sense, so the trimmed command is fully determined |
| JsRuntime.TrimEmptyIffAllSpace | app.js:53-54 | The trimmed input is empty exactly when the chunk is all whitespace |
| JsRuntime.TrimIdempotent | app.js:53 | Trimming an already trimmed input changes nothing |
| JsRuntime.ToInteger | app.js:150 | The count conversion truncates toward zero: within one of the number, never further from zero |
| JsRuntime.Repeat | app.js:150-152 | `repeat` succeeds exactly when the count is above -1, and then gives the truncated count of copies of the character |
| Activities.ForEach | app.js:120 | `forEach` fails exactly when some element's rendering fails, is silent exactly when every element's is, and emits only rendering output when each element does |
| Activities.ForEachAppend | app.js:120 | `forEach` over a concatenation is `forEach` over the first part followed, unless it threw, by the second part, so output order follows element order |
| Activities.SilentElementInvisible | app.js:133-143 | An element whose rendering does nothing can be removed from a `forEach` without changing its output |
| HeroCards.HalfCount | app.js:150 | The repeat count `(70 - length) / 2` is the half of the leftover rounded toward zero |
| HeroCards.ContentLine | app.js:149-153 | `contentLine` succeeds exactly for content of at most 71 characters and throws RangeError otherwise. On success the content sits unchanged between equal runs of blanks. The line is 70 wide for an even leftover, 69 for an odd one, and the bare content at 71 |
| HeroCards.FramedLine | app.js:156-158 | A framed title or text line is `*`, the centred content, `*`. A missing field throws TypeError and an overlong one throws |
| HeroCards.RenderHeroCard | app.js:147-160 | A card prints only lines. It completes, with exactly five lines, exactly when content, title and text are present and at most 71 long. Otherwise it stops after one line when there is no usable title, or after three when there is no usable text. A missing field throws TypeError and an overlong one RangeError |
| HeroCards.HeroCardLayout | app.js:155-159 | Line 1 is `/` and 71 stars. Line 2 is the title centred between `*`s, 72 wide for an even-length title, 71 for an odd one, 73 at length 71. Line 3 is `*`, 70 blanks, `*`. Line 4 is the text centred the same way. Line 5 is 71 stars and `/` |
| HeroCards.ContentLineOfThree | app.js:149-153 | `contentLine("ABC")` pads 33 blanks on each side, 69 characters in all |
| HeroCards.HiBodyCard | app.js:155-159 | The card titled "Hi" with text "Body" prints exactly the five expected lines |
| Rendering.RenderAttachment | app.js:133-143 | An attachment prints nothing exactly when its content type is neither a hero card nor `image/png`. A PNG prints the notice line and opens its URL. Only a hero card can throw |
| Rendering.RenderActivity | app.js:127-145 | `printMessage` prints the text first exactly when it is present and non-empty, then exactly the output of the attachment loop in order, and throws exactly when that loop throws. It prints nothing exactly when there is no text and every attachment is skipped. It throws only through a hero card |
| Rendering.UnhandledAttachmentInvisible | app.js:134-142 | Inserting an attachment of an unhandled content type anywhere in an activity's list changes nothing printed |
| Rendering.SuppressEcho | app.js:113 | The filter keeps exactly the activities not sent by `DirectLineClient`. It throws TypeError exactly when some activity has no `from` |
| Rendering.SuppressEchoCounts | app.js:113 | Each activity not sent by `DirectLineClient` survives the filter as often as it occurs in the batch, and the client's own never do |
| Rendering.SuppressEchoAppend | app.js:113 | The survivors of a concatenated batch are the survivors of each part in order, so the filter preserves relative order |
| Rendering.SuppressEchoKeepsOthers | app.js:113 | A batch with no self-sent activity passes the filter unchanged |
| Rendering.BracketedShape | app.js:115-123 | Printing survivors gives one clear-line first and no other. When nothing threw, it gives exactly one prompt, last. After an exception there is no prompt |
| Rendering.PrintMessages | app.js:110-125 | A batch prints nothing exactly when it is missing, empty or entirely self-sent, or some `from` is missing (then TypeError). Otherwise it prints one clear-line first, rendered activities, and, unless rendering threw, exactly one final prompt |
| Rendering.EchoInvisible | app.js:110-125 | Inserting one of the client's own activities anywhere in a batch changes nothing printed |
| Rendering.OthersPrintedInOrder | app.js:119-120 | A batch written only by others is printed in full, every activity in arrival order, between the clear-line and the prompt |
| ConsoleInput.ExitSpellings | app.js:55 | The input matches the exit command exactly when it is `exit` with each letter in either case |
| ConsoleInput.OnInput | app.js:52-76 | An all-whitespace chunk does nothing. The exit command (trimmed, any case) gives exactly one exit and nothing else. Any other chunk gives exactly one post to the conversation, then one prompt. The post is a `message` with format `plain`, text equal to the trimmed chunk, `from.id` and `from.name` both `DirectLineClient`, and no attachments |
| ConsoleInput.ExitDespiteSpacing | app.js:53-57 | Whitespace around the exit command in any case still ends the session without posting |
| ConsoleInput.PostsTrimmedText | app.js:53-74 | Whatever whitespace surrounds a message, exactly the message is posted, followed by a prompt |
| ConsoleInput.OwnPostsNeverShown | app.js:66-69 | Every activity the client posts carries its own id. When the relay echoes it back in any batch, the filter at app.js:113 drops it and nothing printed changes |
| ConsoleInput.HelloIsPosted | app.js:53-74 | Typing `hello` followed by a newline posts `hello` to the conversation and prompts again |
| ConsoleInput.MixedCaseExit | app.js:53-57 | Typing ` ExIt ` ends the session and posts nothing |

## Left out

- Startup (app.js:5-47) is not modelled because it is all network I/O and
  configuration. That covers the environment check for the secret, the fetch
  of the API description, the token exchange, the authorisation setup and the
  start of the conversation.
- The remote post call (app.js:60, 71-73) is not modelled. It becomes a `Post`
  event carrying the conversation id and the activity. A failed send is only
  logged and does not change what the model emits.
- The WebSocket client (app.js:79-107) is not modelled. This covers its
  connect, error and close callbacks, the frame filter on UTF-8 non-empty
  data, `JSON.parse` and the debug print of each parsed frame at app.js:100.
  `PrintMessages` takes the frame's `activities` field directly.
- The opening prompt at app.js:51 is not modelled. It is written once before
  the listener is installed.
- Terminal and OS effects are abstract events: `process.exit` is `Exit`,
  `clearLine` with `cursorTo(0)` is `ClearLine`, and `open(url)` is
  `OpenViewer`. What the viewer does with a missing URL is not modelled.
- The decoding of the stdin buffer (`e.toString()`) is not modelled: `OnInput`
  receives the decoded string.
- JavaScript `length` counts UTF-16 code units, while a Dafny `string` counts
  Unicode scalar values. Card widths therefore agree only for text in the Basic
  Multilingual Plane.
- Inbound JSON values of the wrong type are not modelled. A number where a
  string is expected, or a non-array `activities`, would need dynamic typing.
  A field is present with its expected type or missing. `null` is treated like
  a missing value. That is exact everywhere except `contentUrl`: for a PNG
  attachment whose `contentUrl` is `null` the client prints `Opening the
  requested image null` and opens `null`, while the model prints `undefined`.
- ConsoleInput.IsExitWord lower-cases only the letters A to Z. Full Unicode
  `toLowerCase` is not modelled. This cannot change the result of comparing
  against `exit`, because no other character lower-cases to `e`, `x`, `i` or
  `t`.
