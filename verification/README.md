# Clipboard image MCP server: a verified model

`server.ts` runs a Model Context Protocol server with one tool, `getClipboardImage`.
The tool runs `pngpaste` to read the clipboard image and returns it base64-encoded.
The server is served over stdio or HTTP streaming, whichever the command line picks.
This project models the parts of `server.ts` that are logic rather than glue:

- `wrappers.dfy` (`Wrappers`): `Option`, which stands for JavaScript's `undefined` and for a rejected decode.
- `transport.dfy` (`Transport`): the `parseArgs` loop as a method (`ParseArgs`).
  It is proved equal to a recursive specification (`ParseFrom`/`Parse`).
  Lemmas about the scan are stated over the set of positions it reads as flags (`FlagPositions`).
  The module also holds the `PORT` default (`Port`), the `startConfig` conditional (`BuildStartConfig`) and their composition up to the call of `start` (`Startup`).
- `base64.dfy` (`Base64`): the `stdout.toString('base64')` encoding, as defined in section 4 of RFC 4648.
  It comes with a strict decoder, and the two are proved inverse in both directions.
- `clipboard_tool.dfy` (`ClipboardTool`): the `execute` handler of `getClipboardImage` as a pure function.
  Its inputs are whether `which pngpaste` succeeded and what `pngpaste -` produced: its bytes, or the error's message.

Where the two sources disagree, the model follows the code. Some descriptions of this server say a non-numeric `PORT` falls back to 4000. In the code (server.ts:96), only an unset or empty `PORT` does; any other value goes to `parseInt`.

## Model

| member | source | states |
|---|---|---|
| `Transport.ParseArgs` | server.ts:76-93 | the loop, whose index stays within 0..\|args\|+1 and which terminates, returns exactly the outcome of the recursive scan `Parse` |
| `Transport.ParseFrom` | server.ts:87-88 | every exit the scan can take has status 0 |
| `Transport.TransportNamed` | server.ts:83-84 | a `--transport` value is accepted only if it is exactly the name of a transport, and then selects that transport |
| `Transport.TransportNamedInverse` | server.ts:83-84 | `stdio` and `httpStream` are each accepted and select their own transport |
| `Transport.FlagPositions` | server.ts:80-90 | every position the scan reads as a flag lies within the token list, after the starting point |
| `Transport.ExitIffHelpFlagRead` | server.ts:80-89 | the scan exits if and only if some token it reads as a flag (not one consumed as a value) is `--help` or `-h` |
| `Transport.KeepsCurrentUnlessSet` | server.ts:80-86 | if no flag position read holds `--transport`/`-t` followed by a recognised name, a non-exiting scan keeps the transport it started with |
| `Transport.DefaultIsStdio` | server.ts:78-92 | with no tokens, or with no recognised `--transport` value read, the parsed transport is stdio |
| `Transport.LastRecognisedValueWins` | server.ts:80-85 | when several `--transport` flags carry a recognised value, a non-exiting scan ends with the transport named after the last one |
| `Transport.ValueTokenIsSkipped` | server.ts:81-86 | the token after a `--transport` flag is never read as a flag, whatever it is (so `--transport --help` does not exit) |
| `Transport.ParseExamples` | server.ts:76-93 | worked cases: empty input, last value wins, bogus value ignored, `--transport --help`, a trailing `--transport`, `-h` exits |
| `Transport.Port` | server.ts:96 | an unset or empty `PORT` gives 4000; any other value gives what `parseInt` makes of it |
| `Transport.BuildStartConfig` | server.ts:98-108 | the configuration's transport type is the parsed one; an HTTP-stream configuration carries the port and the endpoint `/mcp` |
| `Transport.UserArgs` | server.ts:77 | the parsed tokens are `argv` without its first two entries, and none if there are fewer |
| `Transport.Startup` | server.ts:95-110 | start-up exits with status 0 exactly when the scan exits; otherwise it starts with the parsed transport, and on HTTP streaming with port `Port(env)` and endpoint `/mcp` |
| `Transport.StartupScenarios` | server.ts:95-108 | no flags give stdio; `--transport httpStream` with PORT=8080 gives HTTP streaming on 8080 at `/mcp`, and with an empty PORT on 4000; a `--help` read as a flag exits 0 |
| `Base64.Value` | server.ts:47 | the value of an alphabet character is the one `Char` maps back to that character |
| `Base64.Encode` | server.ts:47 | the text has four characters per started group of three bytes, each an alphabet character or `=` |
| `Base64.DecodeEncode` | server.ts:47 | decoding the encoding of any byte string gives back that byte string |
| `Base64.EncodeDecode` | server.ts:47 | any text the strict decoder accepts is the encoding of what it decodes to |
| `ClipboardTool.CaptureErrorText` | server.ts:67 | the error text is the prefix `Error capturing clipboard image: `, then the error's message, then `. Make sure you have an image copied to your clipboard.` |
| `ClipboardTool.CaptureErrorMessageRecovered` | server.ts:67 | the error's message can be read back from the error text |
| `ClipboardTool.GetClipboardImage` | server.ts:30-72 | the response has one or two parts and the first is text; it has two exactly when pngpaste is available and the capture succeeded, and then the second is an `image/png` image |
| `ClipboardTool.ImageIffCaptured` | server.ts:30-72 | the response holds an image part if and only if pngpaste is available and the capture succeeded |
| `ClipboardTool.NotInstalledResponse` | server.ts:33-42 | without pngpaste the response is one text part that contains `brew install pngpaste`, and no image |
| `ClipboardTool.CapturedResponse` | server.ts:46-61 | a successful capture gives the caption text, then an `image/png` image whose data decodes to the captured bytes |
| `ClipboardTool.CaptureFailedResponse` | server.ts:62-70 | a failed capture gives one text part that starts with the error prefix, carries the error's message right after it, and ends with the reminder to copy an image |

## Left out

- The FastMCP runtime is not modelled: server construction, `addTool` registration, `start` and its promise, and the `process.exit(1)` when `start` fails (server.ts:9-13, 26-29, 110-114). `Startup` stops at the configuration handed to `start`.
- Running `which pngpaste` and `pngpaste -` through `child_process.exec` is replaced by two inputs (server.ts:16-23, 46): the availability flag and the capture result. The availability check followed by the capture is therefore not atomic in the source, and the model has no timing at all.
- `process.exit`, the SIGINT handler, and reading `process.argv` and `process.env` are ambient process control (server.ts:88, 117-119). `argv` and `PORT` are parameters, and an exit is the `Exit`/`ExitProcess` outcome.
- Port: JavaScript's `parseInt` is an injected `string -> int` function. Its `NaN` result for non-numeric text is not represented, so no default is claimed for non-empty, non-numeric values.
- `CaptureFailed` carries the thrown error's `message` as a string. A thrown value without a `message` (which the template would render as `undefined`) is not distinguished.
- The zod parameter schema, the tool's name and description, and the async/await sequencing carry no logic worth a contract.
- Some descriptions of this server mention a second tool that reads `hooray.png` from the home directory. That code is not part of this model.
