# Portfolio static server and Node version checks, modelled in Dafny

The repository is a single-page portfolio site. It has two pieces of
non-presentational logic, and this project models both:

- **The static-file server** (`server.js`). For each request it does four things.
  It strips the query string from the URL. It rewrites `/` and every path without
  a `.` to the entry document `/index.html`. It takes the extension from the last
  `.` and looks it up in a fixed MIME table, falling back to
  `application/octet-stream`. It streams the file, and when streaming fails it
  either falls back to `index.html` as `text/html` or answers 500. Before
  listening, the server compares the running Node version with `v18.0.0` and
  exits with code 1 when it is older.
- **The version-check script** (`check-node-version.js`). It parses a version
  by removing one optional leading `v` and splitting on `.`. It compares the
  first three components the same way the server does. It exits with code 1
  when the running version is below `18.0.0`.

Modules, one per concern:

| file | module | what it holds |
|---|---|---|
| `string_ops.dfy` | `StringOps` | JavaScript `indexOf`, `lastIndexOf`, `substring`, `split`, and `Join` as the inverse of `split` |
| `version_order.dfy` | `VersionOrder` | `Number` on a component, the zero default for falsy components, the three-component comparison loop and its lexicographic meaning |
| `static_server.dfy` | `StaticServer` | URL normalisation, extension, MIME lookup, the stream-error decision, the whole handler |
| `server_version.dfy` | `ServerVersionGate` | the server's `compareVersions` (drops the first character) and its startup exit |
| `node_version_check.dfy` | `NodeVersionCheck` | `parseVersion` (drops an optional `v`), `compareVersions`, and the script's exit code |

The filesystem is a parameter. `probe: string -> FileStatus` tells, for a
logical path, whether a read stream on the file under the build directory
succeeds (`Readable`) or fails with an error code (`StreamError(code)`). The
join onto the build directory happens inside that function. The handler's
result is an `Outcome`:

- `Serve(path, contentType)`: the requested file, with its table type.
- `ServeIndexFallback`: the entry document, announced as `text/html`.
- `Error500`: status 500 with the body "Internal Server Error".

A request for a missing `/index.html` gets 500, not 404
(`StaticServer.MissingIndexIsServerError`). The ENOENT branch of the stream's
error listener excludes `/index.html` (`server.js:93`), so the request takes
the generic error branch. The 404 in the `catch` block (`server.js:104-106`) is
only reached by synchronous throws, and opening a read stream on a missing file
raises none: the error arrives later, on the stream.

## Model

| member | source | states |
|---|---|---|
| StringOps.FirstIndex | server.js:66-67 | the first position of a character, or -1 exactly when it is absent |
| StringOps.LastIndex | server.js:79 | the last position of a character (none after it), or -1 exactly when it is absent |
| StringOps.SubstringFrom | server.js:79 | `substring(start)` clamps the start into the string: a negative start gives the whole string, a start past the end gives "" |
| StringOps.Split | check-node-version.js:9 | `split` gives at least one piece, no piece contains the separator, and joining the pieces with the separator gives back the input |
| StringOps.SplitJoin | server.js:21 | splitting a joined list of separator-free pieces gives back the pieces, which is the other direction of the round trip |
| StringOps.SplitHead | server.js:67 | the first piece of a split is the whole string when the separator is absent, else the prefix before the first separator |
| StringOps.LastIndexAt | server.js:79 | a position holding the character, with no occurrence after it, is the last index |
| StaticServer.StripQuery | server.js:65-68 | the result is the prefix of the URL before its first `?`: it has no `?`, the URL continues with `?` after it, and a URL without `?` is unchanged |
| StaticServer.RewriteRoute | server.js:70-73 | a path without `.` (the root included) becomes `/index.html`, any other path is kept, so the result always has a `.` |
| StaticServer.Normalize | server.js:63-73 | a normalised path always contains a `.` and never a `?` |
| StaticServer.NormalizeIdempotent | server.js:63-73 | normalising a normalised path changes nothing |
| StaticServer.NormalizeToIndex | server.js:66-73 | a request resolves to `/index.html` exactly when its query-free path has no `.` or already is `/index.html` |
| StaticServer.Extension | server.js:79 | the extension is a suffix of the path; for a path with a `.` it starts at a `.` and contains no other `.` |
| StaticServer.ServedExtensionShape | server.js:79 | the extension of every normalised request path starts with `.` and has no further `.` |
| StaticServer.ContentType | server.js:39-57 | exact-key lookup in the table's own entries: a listed extension gets its table type, any other gets `application/octet-stream`, and the type is never empty |
| StaticServer.InheritedKeysAreNames | server.js:39 | no property name a plain object inherits starts with `.` |
| StaticServer.HandlerMissesInheritedKeys | server.js:79-80 | the extension the handler computes never names an inherited property, so there the own-entry lookup is the whole JavaScript lookup |
| StaticServer.ContentTypeRange | server.js:80 | the announced type is always a table value or the binary default |
| StaticServer.ContentTypeCaseSensitive | server.js:80 | `.png` is `image/png` but `.PNG` is `application/octet-stream` |
| StaticServer.OnStreamError | server.js:89-100 | ENOENT on a path other than `/index.html` falls back to the entry document; ENOENT on `/index.html` or any other code gives 500 |
| StaticServer.Handle | server.js:59-100 | a file is served exactly when its stream is readable, with the normalised path and the table type of its extension; the fallback happens exactly on ENOENT for a path other than `/index.html` |
| StaticServer.QueryIgnored | server.js:65-68 | a URL with a query string gets the same response as its path alone |
| StaticServer.RootServesIndex | server.js:71-72 | `/` gets the same response as `/index.html` |
| StaticServer.ExtensionlessServesIndex | server.js:71-72 | every URL whose query-free path has no `.` gets the same response as `/index.html` |
| StaticServer.MissingAssetFallsBack | server.js:93-95 | a missing file behind any path other than `/index.html` gives the fallback, which is a 200 when `index.html` itself is readable |
| StaticServer.MissingIndexIsServerError | server.js:93-99 | a missing `/index.html`, requested directly or through a rewritten route, gives status 500 |
| StaticServer.OtherStreamErrorIsServerError | server.js:96-99 | a stream error other than ENOENT takes the listener's 500 branch |
| StaticServer.AboutRouteServesIndex | server.js:71-72 | `/about` is answered like `/index.html` |
| StaticServer.PresentIndexServedAsHtml | server.js:79-87 | a present `/index.html` is served as `text/html` |
| StaticServer.MissingPngFallsBack | server.js:93-95 | a missing `/missing.png` falls back to the entry document |
| StaticServer.QueriedScriptServed | server.js:65-80 | `/assets/app.js?<anything>` is served from `/assets/app.js` as `text/javascript` |
| StaticServer.DottedRouteTakenForFile | server.js:71-95 | `/v1.2/about` is not rewritten: its extension is `.2/about`, so line 80 picks the binary type, which is sent only if such a file exists; otherwise the ENOENT fallback serves `index.html` as HTML |
| VersionOrder.ToNumber | server.js:21 | `Number` on a component is NaN exactly when it is not all digits, and `""` is 0 |
| VersionOrder.NumberOfDecimal | check-node-version.js:9 | `Number` reads back every rendered natural number |
| VersionOrder.NumbersOf | check-node-version.js:9 | `map(Number)` keeps the length and numbers each piece in place |
| VersionOrder.PartOrZero | check-node-version.js:17-18 | a numeric component keeps its value; NaN and a missing index read as 0 |
| VersionOrder.VersionOf | check-node-version.js:17-18 | component `i` of the read version is the number at index `i`, or 0 when that index is missing or NaN |
| VersionOrder.CompareFrom | check-node-version.js:16-22 | the loop from iteration `i` gives 0 exactly when the remaining components agree, else the difference at the leftmost component that differs |
| VersionOrder.CompareIsLexicographic | check-node-version.js:16-22 | the comparison is 0 exactly on equal versions, and its sign is the lexicographic order of (major, minor, patch) |
| VersionOrder.CompareAntisymmetric | check-node-version.js:12-23 | swapping the arguments negates the result, and a version compares 0 with itself |
| VersionOrder.CompareTransitive | check-node-version.js:12-23 | the induced order and its strict part are transitive |
| VersionOrder.VersionOfIgnoresExtraParts | check-node-version.js:16 | components after the third are never read |
| VersionOrder.VersionOfMissingPartIsZero | check-node-version.js:17-18 | a missing component counts as 0 |
| VersionOrder.VersionOfNaNPartIsZero | check-node-version.js:17-18 | a non-numeric component counts as 0 |
| VersionOrder.ParseRender | check-node-version.js:9 | splitting and numbering a rendered version gives its three components back |
| ServerVersionGate.VersionOfString | server.js:21-26 | a string of at most one character reads as 0.0.0; any one character followed by a rendered version reads as that version |
| ServerVersionGate.CompareVersions | server.js:20-31 | the server's comparison is 0 exactly on equal read components, and its sign is their lexicographic order |
| ServerVersionGate.ReadsPrefixedRendering | server.js:21 | any one UTF-16 code unit followed by a rendered version is read as that version |
| ServerVersionGate.RequiredVersionValue | server.js:9 | `v18.0.0` is read as 18.0.0 |
| ServerVersionGate.StartupGate | server.js:11-18 | the server exits with code 1 exactly when the comparison with `v18.0.0` is negative, that is, when the running major version is below 18 |
| ServerVersionGate.CompareVersionsAntisymmetric | server.js:20-31 | the comparison is 0 on equal inputs and antisymmetric |
| ServerVersionGate.FirstCharacterIgnored | server.js:21-22 | the first character is dropped whatever it is, as long as it is one UTF-16 code unit |
| ServerVersionGate.UnprefixedVersionLosesLeadingDigit | server.js:21 | an unprefixed `18.0.0` is read as 8.0.0 and would fail the gate |
| ServerVersionGate.GateOnNodeVersion | server.js:11-18 | a Node version `vM.m.p` is refused exactly when M < 18 |
| ServerVersionGate.GateAcceptsNode20 | server.js:11-18 | `v20.11.1` starts the server |
| ServerVersionGate.GateRefusesNode16 | server.js:11-18 | `v16.20.2` makes the server exit with code 1 |
| NodeVersionCheck.StripV | check-node-version.js:8 | one leading `v` is removed when present, and the string is otherwise unchanged |
| NodeVersionCheck.VersionOfString | check-node-version.js:13-18 | the script reads `""` and `v` as 0.0.0, and a rendered version, with or without a leading `v`, as that version |
| NodeVersionCheck.CompareVersions | check-node-version.js:12-23 | the script's comparison is 0 exactly on equal parsed components, and its sign is their lexicographic order |
| NodeVersionCheck.ParseVersion | check-node-version.js:6-10 | at least one component; a rendered version parses to its three components, with or without a leading `v` |
| NodeVersionCheck.StripVOfRendering | check-node-version.js:8 | a version that starts with a digit keeps it, and a `v` in front of it is the only character removed |
| NodeVersionCheck.RequiredVersionValue | check-node-version.js:4 | `18.0.0` is read as 18.0.0 |
| NodeVersionCheck.CheckExitCode | check-node-version.js:25-28 | the exit code is 1 exactly when the comparison with `18.0.0` is negative (major below 18), and 0 otherwise |
| NodeVersionCheck.CompareVersionsAntisymmetric | check-node-version.js:12-23 | `compareVersions(a, a) == 0` and `compareVersions(a, b) == -compareVersions(b, a)` |
| NodeVersionCheck.CompareVersionsTransitive | check-node-version.js:12-23 | the induced order is transitive |
| NodeVersionCheck.LeadingVOptional | check-node-version.js:8 | with or without one leading `v`, the same components are parsed |
| NodeVersionCheck.ParseDottedDigits | check-node-version.js:9 | a dotted list of digit strings parses to the numbers of its pieces |
| NodeVersionCheck.MajorOnlyComparesEqual | check-node-version.js:17-18 | `18` compares equal to `18.0.0` |
| NodeVersionCheck.MajorMinorComparesEqual | check-node-version.js:17-18 | `18.0` compares equal to `18.0.0` |
| NodeVersionCheck.ExtraComponentsCompareEqual | check-node-version.js:16 | `18.0.0.7` compares equal to `18.0.0` |
| NodeVersionCheck.PrefixedRequiredCompareEqual | check-node-version.js:8 | `v18.0.0` compares equal to `18.0.0` |
| NodeVersionCheck.AgreesWithServerOnNodeVersions | check-node-version.js:12-23 | on `v`-prefixed strings the script's and the server's comparisons agree |
| NodeVersionCheck.VerdictAgreesWithServerGate | check-node-version.js:69-73 | on a `v`-prefixed Node version, the script fails exactly when the server refuses to start |

## Left out

- HTTP listener setup, request logging, header writes and the byte streaming in `server.js` are I/O. The model decides which file is served, with which type, and which branch of the error listener runs. It does not model the bytes.
- `path.join` onto the build directory is treated as opaque and folded into the `probe` parameter. No path-traversal check is added, because the code has none.
- The `catch` block's 404/500 answers (`server.js:101-111`) are not modelled. Nothing in the `try` block throws synchronously for a missing or unreadable file, so stream errors never reach that block.
- StaticServer.MissingAssetFallsBack: promises a 200 only when `index.html` is readable. When it is not, the fallback stream (`server.js:95`) has no error listener and Node raises an unhandled error; the model does not describe that crash.
- ServerVersionGate.VersionOfString: strings are sequences of Unicode scalar values here, while JavaScript's `substring(1)` removes one UTF-16 code unit. For a first character outside the Basic Multilingual Plane, JavaScript keeps a lone surrogate, which makes the first component NaN and so 0. The model drops the whole character instead. Node's own version string is ASCII, so the gate is unaffected.
- StaticServer.OtherStreamErrorIsServerError: `probe` reports only errors raised before the first byte is sent, such as ENOENT, EACCES or EISDIR when the stream opens. The stream is piped into the response before any error (`server.js:87`), so after an error on a later read (EIO, say) the 200 status line is already sent: setting the status to 500 changes nothing on the wire, and "Internal Server Error" is appended to a partial body. The model does not describe that case.
- StaticServer.ContentType: looks the extension up in the table's own 17 entries. JavaScript's lookup also finds the members every object inherits (`constructor`, `toString`, `__proto__` and the rest of `StaticServer.InheritedKeys`), which are truthy and would be announced instead of `application/octet-stream`. No extension the handler computes names one (`StaticServer.HandlerMissesInheritedKeys`), so the handler is unaffected.
- A 500 response keeps the `Content-Type` header chosen from the table before the error. `Error500` does not carry headers.
- VersionOrder.ToNumber: models JavaScript `Number` only for digit strings (and `""`). Whitespace trimming, signs, hexadecimal, exponents and fractions would give other numbers in JavaScript, but they read as NaN here and therefore as 0.
- VersionOrder.CompareFrom: integers are unbounded. JavaScript numbers are doubles, so components above 2^53 and the precision of their differences are not modelled.
- `console.error` output and `process.exit` are represented by the `GateDecision` value and the exit code. They are not performed.
- `src/App.jsx` (UI composition and animation), `check-server.js` (an outbound HTTP probe) and `ecosystem.config.js` (process-manager settings) are not part of this model.
