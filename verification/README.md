# Breeze core, modelled in Dafny

Breeze is a desktop browser for the "small web". It speaks these protocols:

- Gemini, Spartan, Guppy and Scroll;
- Gopher and Gophers;
- Nex, Finger and Scorpion;
- the text protocol.

This project models the client's pure core:

- **Schemes and ports.** Which protocol a URL's scheme selects, and each protocol's default port.
- **Requests.** The request line each protocol sends, and whether it goes over TLS.
- **Status lines.** The four status-line families: Gemini (which Scroll shares), Spartan, Scorpion and the text protocol. Also how a raw response is split into a status and a body.
- **Page readers.** The readers for Gemtext, the Scorpion block stream, Gopher menus, Nex pages, Finger and plain text. Also the dispatch that hands a page to the handler of its protocol.
- **History.** The back/forward history: a list of entries and a cursor.
- **Navigation and input.** The navigation step, the reaction to a finished fetch, and the Submit button of a server's input prompt.

Each operation is a total function over immutable values. Wherever the client would panic (an `unwrap` on `None`, `unreachable!`, or a slice past the end), the model returns an `Err` carrying a `Fault` that names the panic site (`wrappers.dfy`). The client's mutable state is one `Navigation.Session` record; every step returns the next record.

The project has one module per source concern:

| file | module | models |
|---|---|---|
| `wrappers.dfy` | `Wrappers` | `Option`, `Result`, the fault catalogue |
| `strings.dfy` | `Strings` | `split_once`, `lines`, `trim`, `u16` parsing, line filtering |
| `bytes.dfy` | `Bytes` | bytes, the byte-to-text reading, big-endian length fields |
| `url.dfy` | `Urls` | the parts of a parsed URL the client reads |
| `protocol.dfy` | `Protocols` | `src/handlers/mod.rs`, the port table of `fetch` |
| `requests.dfy` | `Requests` | the request half of `navigate` |
| `status.dfy` | `Status` | the status enums and `parse_server_response` |
| `gemtext.dfy` | `Gemtext` | `src/handlers/gemtext.rs` |
| `scorpion.dfy` | `ScorpionBlocks` | `src/handlers/scorpion.rs` |
| `gopher.dfy` | `Gopher` | `src/protocols/gopher.rs`, standing in for the Gopher handler the client calls (see "Left out") |
| `nex.dfy` | `Nex` | `src/handlers/nex.rs` |
| `history.dfy` | `History` | `src/history.rs` |
| `content.dfy` | `Content` | `ContentHandlers::parse_content`, Finger and plaintext handlers |
| `navigation.dfy` | `Navigation` | `navigate`, the fetch-result half of `update`, the input prompt |

Two pieces of behaviour are parameters of the model rather than definitions:

- **The URL library.** `Urls.UrlLibrary` holds `Url::parse` and `Url::join` as total functions that may fail.
- **The code page 437 tables.** `ScorpionBlocks.CodePage` holds the two tables of the Scorpion PC encoding.

## Model

| member | source | states |
|---|---|---|
| Protocols.SchemeOf | src/handlers/mod.rs:33 | the text before the first ':' (or all of it): it contains no ':', is a prefix of the input, and is followed by ':' when shorter |
| Protocols.FromStr | src/handlers/mod.rs:32-46 | never yields Plaintext; Gopher exactly for "gopher"/"gophers", secure Gopher exactly for "gophers", the text protocol exactly for "text" |
| Protocols.FromStrReadsOnlyScheme | src/handlers/mod.rs:32-46 | classification depends only on the text before the first ':' |
| Protocols.FromStrMatchesSchemeName | src/handlers/mod.rs:32-46 | a string is classified as a known protocol p iff its scheme is p's scheme name |
| Protocols.SchemeNameClassifies | src/handlers/mod.rs:32-46 | each protocol's scheme name is classified as that protocol (every listed protocol is reachable) |
| Protocols.ClassifiedHasSchemeName | src/handlers/mod.rs:32-46 | a known classification always comes from that protocol's own scheme name |
| Protocols.UnknownIffUnlisted | src/handlers/mod.rs:44 | Unknown exactly when the scheme is none of the ten listed names |
| Protocols.FromStrOfToString | src/handlers/mod.rs:28-30 | classifying a URL's serialization gives the same protocol as classifying the URL |
| Protocols.DefaultPort | src/networking.rs:227-238 | every default port fits in 16 bits, and is 0 exactly for Plaintext and Unknown |
| Protocols.DefaultPortsDistinct | src/networking.rs:227-238 | no two protocols share a non-zero default port, except Gopher and Gophers |
| Protocols.EffectivePort | src/networking.rs:227 | an explicit port wins over the default |
| Requests.NormalisedPath | src/main.rs:236-239 | the path sent is never empty and is the URL's path when that is non-empty |
| Requests.BuildRequest | src/main.rs:233-265 | faults exactly when the URL has no host (checked first) or its protocol is not in the request table; the TLS flag is set exactly for Gemini, Scroll and Gophers; the port is the effective port |
| Requests.UrlCarryingRequests | src/main.rs:249-254 | Gemini, Guppy and the text protocol send the URL itself; Scorpion sends "R " and the URL; Scroll sends the URL and " en" |
| Requests.FingerRequestIsPath | src/main.rs:248 | putting a '/' back in front of the Finger request gives the path, when the path starts with '/' |
| Requests.GopherRequestFields | src/main.rs:240-250 | the Gopher request splits at tabs into exactly the path, followed by the query when there is one |
| Requests.SpartanRequestRoundTrip | src/main.rs:255-262 | the Spartan request line reads back as host, path and query; the length prefix delimits the query |
| Status.StatusParts | src/networking.rs:62 | a status line splits at its first space into a space-free code and the meta text, and faults exactly when there is no space |
| Status.GeminiFromCode | src/networking.rs:64-87 | defined exactly for the listed codes; the status reads back as its code (every 2x is a success) and keeps the meta text unless it is a certificate status |
| Status.ParseGemini | src/networking.rs:60-90 | succeeds exactly on a listed code followed by a space; otherwise faults with the separator or unknown-code fault; the result carries the code and meta it was read from |
| Status.GeminiRoundTrip | src/networking.rs:60-90 | writing any Gemini status as a line and parsing it gives the status back |
| Status.GeminiSuccessRange | src/networking.rs:68-70 | every code 20 to 29 is a success carrying the meta text |
| Status.ParseSpartan | src/networking.rs:99-110 | codes 2 to 5 are exactly the accepted ones, each mapped to its status with the meta text |
| Status.SpartanRoundTrip | src/networking.rs:99-110 | writing any Spartan status as a line and parsing it gives the status back |
| Status.ParseText | src/networking.rs:193-203 | codes 20, 30 and 40 are exactly the accepted ones, each mapped to its status with the meta text |
| Status.TextRoundTrip | src/networking.rs:193-203 | writing any text-protocol status as a line and parsing it gives the status back |
| Status.ScorpionFromCode | src/networking.rs:150-181 | defined exactly for the 29 codes of the table |
| Status.ScorpionFromCodeFacts | src/networking.rs:150-181 | the status a listed code yields reads back as that code, and carries the meta text exactly for the codes that keep it |
| Status.ParseScorpion | src/networking.rs:145-185 | succeeds exactly on a listed code followed by a space, and the result reads back as that code with the meta text where the code keeps it |
| Status.ScorpionRoundTrip | src/networking.rs:145-185 | writing any of the 29 Scorpion statuses as a line and parsing it gives the status back |
| Status.ParseWith | src/networking.rs:332-349 | a response without a line feed faults; otherwise the body is the bytes after the first line feed and the status is parsed from the text before it |
| Status.ParseServerResponse | src/networking.rs:332-386 | the status-line protocols split at the first line feed, and the status is exactly the reading of the first line by the family's own table (Gemini for Gemini and Scroll, Spartan, text protocol, Scorpion), succeeding and faulting with it; Guppy's first line is its content type; every other protocol keeps the whole response as body under a plain-text success |
| Bytes.DecodeThenSplit | src/networking.rs:335-336 | splitting the bytes at the first line feed and reading both halves is the same as reading the response and splitting the text, including the failure case |
| Bytes.EncodeDecode | src/handlers/plaintext.rs:13-16 | the byte reading loses nothing: re-encoding the text gives the bytes back |
| Bytes.BigEndian16RoundTrip | src/handlers/scorpion.rs:175 | the 2-byte attribute length reads back as written |
| Bytes.BigEndian24RoundTrip | src/handlers/scorpion.rs:180-182 | the 3-byte body length reads back as written |
| Gemtext.Classify | src/handlers/gemtext.rs:25-45 | one iff per line type, in the order the prefixes are tested: "=>" link; "###", "##" and "#" headings, the longest prefix winning; ">" quote; three backticks toggle; "*" list; "=:" prompt; text exactly when none of these prefixes is present |
| Gemtext.ToggleIffClassified | src/handlers/gemtext.rs:25-45 | a line toggles preformatting exactly when it is classified as a toggle |
| Gemtext.LinkParts | src/handlers/gemtext.rs:78-84 | the trimmed text splits at its first whitespace into target and trimmed caption; with no whitespace the target is also the caption |
| Gemtext.ParseLine | src/handlers/gemtext.rs:57-108 | the flag flips exactly on a toggle outside plaintext mode; plaintext and empty lines are text; inside a preformatted run the line is verbatim; links and prompts carry their target |
| Gemtext.ParseLinesSkipsDots | src/handlers/gemtext.rs:127-137 | "." lines play no part in the parse |
| Gemtext.ParseLinesByParity | src/handlers/gemtext.rs:127-137 | one record per line, each parsed with the parity of the toggles before it; the final flag is the parity of all toggles |
| Gemtext.MarksByParity | src/handlers/gemtext.rs:105 | each record is marked preformatted exactly when an odd number of toggles precedes it, its own line included |
| Gemtext.ParseContent | src/handlers/gemtext.rs:118-137 | the flag is reset first; plaintext mode gives one text record holding the non-"." lines joined; otherwise one record per non-"." line, in order, each read under the parity of the toggles before it, and the final flag is the parity of all toggles |
| Gemtext.ParseContentByParity | src/handlers/gemtext.rs:118-137 | a page parse starts from a reset flag and holds one record per non-"." line |
| Gemtext.PreformatDoesNotLeak | src/handlers/gemtext.rs:120 | the result of a page parse does not depend on the store before it |
| Gemtext.ExampleLink | src/handlers/gemtext.rs:77-84 | "=> /foo.gmi Foo" is a link to "/foo.gmi" captioned "Foo" |
| ScorpionBlocks.BlockTypeOf | src/handlers/scorpion.rs:28-48 | the codes 0x00, 0x07, 0x0E and every unlisted code read as Paragraph |
| ScorpionBlocks.BlockTypeCodeRoundTrip | src/handlers/scorpion.rs:28-48 | every block type is reached through its code |
| ScorpionBlocks.EncodingOf | src/handlers/scorpion.rs:59-70 | PC exactly for 0x10; every unlisted value reads as TRON-8 |
| ScorpionBlocks.EncodingCodeRoundTrip | src/handlers/scorpion.rs:59-70 | every encoding is reached through its code |
| ScorpionBlocks.ParseBodyData | src/handlers/scorpion.rs:86-150 | the single-pass loop computes the reference reading of the body |
| ScorpionBlocks.NonPcBodyIsTextBytes | src/handlers/scorpion.rs:86-150 | outside the PC encoding a body never faults and reads as its bytes with the markup dropped |
| ScorpionBlocks.PcEscape | src/handlers/scorpion.rs:86-150 | under PC a 0x10 escape and the next byte read as one graphic; an escape at the end of the body faults |
| ScorpionBlocks.ReadBlock | src/handlers/scorpion.rs:171-192 | a block that reads ends within the data and is not plaintext; a length that runs past the end faults as truncated |
| ScorpionBlocks.Blocks | src/handlers/scorpion.rs:166-195 | (corrected loop) every block takes at least 6 bytes, none is plaintext, and fewer than 6 remaining bytes end the loop |
| ScorpionBlocks.BlocksAsWritten | src/handlers/scorpion.rs:170 | the loop as written stops when 6 or fewer bytes remain |
| ScorpionBlocks.ParseContent | src/handlers/scorpion.rs:154-196 | plaintext mode gives one plaintext paragraph with the whole response; otherwise the client's loop reads it, so a response of 6 bytes or fewer gives no blocks, and no block is plaintext |
| ScorpionBlocks.ParseContentAsWrittenOfFrames | src/handlers/scorpion.rs:154-196 | round trip for the client's reader: a response made of well-formed blocks parses to the readings of all of them except a final empty one, with the same faults |
| ScorpionBlocks.OverrunTailIgnored | src/handlers/scorpion.rs:170-176 | a 6-byte response whose attribute length runs past its end is never read by the client's loop, while the corrected loop faults on it as truncated |
| ScorpionBlocks.ParseContentCorrected | src/handlers/scorpion.rs:166-195 | (corrected loop) fewer than 6 bytes give no blocks, and no block is plaintext |
| ScorpionBlocks.BlocksOfFrames | src/handlers/scorpion.rs:166-195 | (corrected loop) a stream of well-formed blocks reads back block for block, from any offset |
| ScorpionBlocks.ParseContentOfFrames | src/handlers/scorpion.rs:154-196 | (corrected loop) round trip: a response made of well-formed blocks parses to exactly their readings |
| ScorpionBlocks.EmptyFinalBlockDropped | src/handlers/scorpion.rs:170 | the loop as written drops a well-formed 6-byte block that the corrected loop reads |
| Gopher.TypeOfMatchesCodes | src/protocols/gopher.rs:42-70 | a type field yields a listed item type exactly when it is one of that type's codes |
| Gopher.SplitType | src/protocols/gopher.rs:110-113 | a one-byte first character splits off as the type; an empty line or a multi-byte first character reads as type "i" |
| Gopher.ParseLine | src/protocols/gopher.rs:97-143 | plaintext and tab-less lines are informational; a line with a tab succeeds exactly when it has at least four fields and the fourth is a 16-bit port, and then holds display, selector, host and port; a missing field or a bad port faults |
| Gopher.ParseMenuLine | src/protocols/gopher.rs:97-143 | round trip: a server's menu line reads back as the item it describes |
| Gopher.ParseLines | src/protocols/gopher.rs:152-170 | succeeds iff every line parses, then holds one item per line in order; a fault is the fault of some line |
| Gopher.ParseContent | src/protocols/gopher.rs:152-170 | "." lines are dropped; plaintext mode gives one informational item with the remaining lines joined |
| Gopher.ParseMenu | src/protocols/gopher.rs:152-170 | round trip: a menu a server writes, one line per item and the "." terminator, reads back as its items in order |
| Strings.WithoutDotsConcat | src/protocols/gopher.rs:154 | dropping "." lines works part by part and keeps the order; with `WithoutDotsSingle`, exactly the "." lines are removed |
| Strings.WithoutDotsSingle | src/handlers/gemtext.rs:122 | a single line is dropped exactly when it is "." |
| Gopher.ItemUrlsAreGopher | src/protocols/gopher.rs:184-192 | both item URLs are classified as plain Gopher |
| Gopher.SearchUrlExtendsLink | src/protocols/gopher.rs:189-211 | a search URL is the link URL with "?" and the query appended |
| Gopher.PortPart | src/protocols/gopher.rs:206-210 | the port is omitted exactly when it is 70 |
| Gopher.PortPartReadsBack | src/protocols/gopher.rs:206-210 | an explicit port in an item URL reads back as the item's port |
| Nex.FromStr | src/handlers/nex.rs:13-18 | the text is kept verbatim and is a link exactly when it starts with "=> " |
| Nex.ParseContent | src/handlers/nex.rs:27-34 | plaintext mode gives one record for the whole body; otherwise one record per line, each the reading of that line |
| Nex.ParseContentKeepsText | src/handlers/nex.rs:27-34 | parsing loses no text: joining the records' texts gives back the body |
| Nex.LinkParts | src/handlers/nex.rs:40 | a link line splits into "=>" and its target, and only link lines split |
| Nex.LinkPartsRoundTrip | src/handlers/nex.rs:40 | the target put back behind the prefix gives the line |
| History.AddEntry | src/history.rs:22-35 | the forward entries are dropped; the URL is appended and the cursor put on it, unless the last kept entry has the same URL |
| History.AddEntryValid | src/history.rs:22-35 | a visit keeps the cursor on an entry, lands on the visited URL and leaves nothing to go forward to |
| History.RemoveLatest | src/history.rs:45-48 | pops the last entry and leaves the cursor alone; faults exactly on an empty history |
| History.RemoveLatestBreaksValid | src/history.rs:45-48 | after two visits, popping leaves the cursor past the end |
| History.RemoveLatestValid | src/history.rs:45-48 | popping keeps the cursor on an entry iff the cursor was not on the last entry or the history becomes empty |
| History.Back | src/history.rs:50-59 | moves back and returns the entry there exactly when the cursor is not at the start; otherwise nothing changes |
| History.Forward | src/history.rs:61-70 | moves forward and returns the entry there exactly when there is one; otherwise nothing changes |
| History.BackForwardValid | src/history.rs:50-80 | back and forward keep the cursor on an entry and return an entry exactly when their `can_go` query holds |
| History.BackThenForward | src/history.rs:50-70 | going back and then forward returns to the same place |
| History.ForwardThenBack | src/history.rs:50-70 | going forward and then back returns to the same place |
| Content.HandlerFor | src/main.rs:121-132 | the Gemini family goes to the Gemtext handler, Gopher to Gopher, Finger, Nex and Scorpion to their own; everything else to plain text |
| Content.ParseContent | src/main.rs:121-132 | only the selected handler's store changes; only Gopher and Scorpion outside plaintext mode can fault; each handler's new store is its reader's result |
| Content.PageLoadReplaces | src/main.rs:121-132 | a page load leaves no trace of the page before it |
| Content.ParseContentIdempotent | src/main.rs:121-132 | loading the same page twice is the same as loading it once |
| Content.RawHandlersShowResponse | src/handlers/finger.rs:22-25 | Finger and plain-text pages ignore the plaintext flag and keep the response byte for byte |
| Content.MessageShown | src/main.rs:121-132 | a message the client composes never faults and lands whole in one entry of the selected store |
| Content.MessageIsResponseText | src/main.rs:121-132 | a message is shown exactly as a response spelling it would be |
| Navigation.ParseUrlBar | src/main.rs:227 | the address parses or the client aborts with the address in the fault |
| Navigation.Navigate | src/main.rs:221-271 | faults exactly when the address does not parse or a known scheme has no host; records the visit first; an unknown scheme shows "Invalid URL" and leaves the fetch alone; otherwise starts the fetch, in plaintext mode when the hint is Plaintext or the URL ends in ".txt"; nothing else changes |
| Navigation.NavigateKeepsHistoryValid | src/main.rs:221-226 | a navigation keeps the history cursor on an entry, and a recorded visit is the current URL |
| Navigation.TakeHint | src/main.rs:372-376 | a pending hint is consumed and its address navigated to under its protocol |
| Navigation.FailurePage | src/main.rs:445-464 | a failure page is the fixed preamble followed by the status's information |
| Navigation.GeminiReactionByClass | src/main.rs:395-482 | the reaction follows the Gemini code's first digit: 1 input, 2 page, 3 redirect, 4 and 5 failure, 6 certificate notice |
| Navigation.ScorpionIgnoredIffBare | src/main.rs:483-485 | a Scorpion status is ignored exactly when it is not OK and carries nothing |
| Navigation.RedirectTargets | src/main.rs:424-443 | a followed target is the one the redirect status carries |
| Navigation.RedirectTargetAsWritten | src/main.rs:426-437 | as written, a target not starting with "/" leaves the current URL in place, faulting when it does not join |
| Navigation.RedirectAsWrittenStaysPut | src/main.rs:431-436 | a redirect to another page that is not an absolute path re-requests the page it came from |
| Navigation.RedirectTarget | src/main.rs:426-437 | (corrected) faults exactly when a target not starting with "/" does not join |
| Navigation.RedirectTargetResolves | src/main.rs:426-437 | the corrected redirect yields a URL exactly when the target resolves to that URL |
| Navigation.PathRedirectKeepsOrigin | src/main.rs:427-429 | an absolute-path redirect changes the path and nothing else |
| Navigation.MessageOf | src/main.rs:445-482 | a message is shown exactly for failures and certificate notices; failures show the failure page |
| Navigation.ShowMessage | src/main.rs:456-462 | a composed message goes to the job protocol's handler in plaintext mode, and nothing else changes |
| Navigation.React | src/main.rs:395-485 | the URL and page text stay; an ignored status changes nothing; failures and notices show their message |
| Navigation.ReactCorrected | src/main.rs:424-443 | (corrected join) every reaction other than a redirect is the client's |
| Navigation.HandleResult | src/main.rs:387-495 | nothing happens while no fetch is ready; a ready result clears the job; a response becomes the page text; a transport error is shown as a message |
| Navigation.InputPromptHandled | src/main.rs:395-404 | an input prompt pops the page's history entry and asks for input addressed to the current URL, faulting on an empty history |
| Navigation.SuccessShowsPage | src/main.rs:406-422 | a success is shown by the job protocol's handler under the job's plaintext flag |
| Navigation.RedirectQueuesNavigation | src/main.rs:424-443 | a redirect faults exactly when a target not starting with "/" does not join; otherwise it queues a recorded navigation under the job's protocol, to the current URL with the target as path when the target starts with "/", and to the unchanged current URL otherwise |
| Navigation.RedirectAsWrittenRefetches | src/main.rs:372-376 | after a redirect whose target does not start with "/", the next frame fetches the current URL again |
| Navigation.CorrectedRedirectQueuesNavigation | src/main.rs:424-443 | (corrected join) a redirect queues a recorded navigation to the resolved URL under the job's protocol |
| Navigation.CorrectedRedirectThenNavigate | src/main.rs:372-376 | (corrected join) after a redirect, the next frame fetches the resolved URL with its own protocol and request |
| Navigation.Update | src/main.rs:372-380 | with nothing pending nothing changes; after a frame no completed input request is left |
| Navigation.SubmitInput | src/main.rs:564-580 | the request is marked completed; except for the profile prompt, a recorded navigation to the destination with the input as query is queued under the destination's protocol; nothing else changes |
| Navigation.QueryKeepsProtocol | src/main.rs:573-576 | appending a query does not change the protocol of a URL with a scheme |
| Navigation.PromptAnswerNavigates | src/main.rs:395-404 | answering a prompt on a page navigates to that page with the answer as query, under the page's own protocol |

## Left out

- Network I/O is not modelled: `fetch`, `fetch_udp`, the TLS handshake, `is_hostname_valid` and the Guppy packet loop. A fetch's result is a parameter of `Navigation.Update` (`FetchOutcome`). The request a fetch would send is kept in the job.
- Background threads are not modelled. The promise of a navigation job becomes the `FetchOutcome` parameter; `Pending` stands for a promise that is not ready.
- The egui user interface is not modelled: rendering, scrolling, fonts, clicks and the settings and profile views. The URLs a Gopher item navigates to are modelled (`Gopher.LinkUrl`, `Gopher.SearchUrl`); the per-item search box that holds the query is not.
- Profiles and certificates are not modelled: the database, certificate generation, and the profile-creating branch of the Submit button (src/main.rs:565-571). `Navigation.SubmitInput` keeps the hint unchanged there.
- The `url` crate is abstract. `Url::parse` and `Url::join` are parameters (`Urls.UrlLibrary`). `Urls.ToString` and `Urls.SetPath` are concrete simplifications: no percent-encoding, no normalisation, and the fragment is not represented.
- `String::from_utf8_lossy` is modelled as one character per byte (`Bytes.Decode`). This is exact for ASCII; multi-byte UTF-8 sequences and U+FFFD replacement are not modelled.
- The code page 437 tables of the Scorpion PC encoding are abstract (`ScorpionBlocks.CodePage`).
- ScorpionBlocks.Graphic: the escape's `byte - 0x40` is modelled with 8-bit wrap-around, as a release build computes it; a debug build would panic instead.
- `src/handlers/gemini.rs`, `src/protocols/textprotocol.rs`, `src/protocols/finger.rs` and `src/uri.rs` are not part of this model; the modelled code does not use them.
- `src/protocols/mod.rs` is not part of this model beyond what `src/protocols/gopher.rs` takes from it (line 7): the `ProtocolHandler` trait, whose `parse_content` reads a `&str` (protocols/mod.rs:33-37), and that module's own `Protocol` enum.
- Gopher.ParseContent: the Gopher reader is modelled from `src/protocols/gopher.rs`. `src/main.rs` declares no `protocols` module (lines 3-7); it sends Gopher pages to `crate::handlers::gopher::Gopher` (lines 27 and 127), whose source is not part of this model. That handler is assumed to decode the response bytes as `Bytes.Decode` does and then read the text as `src/protocols/gopher.rs` does; `Content.ParseContent` rests on this assumption.
- Content.ParseContent: a message the client composes is accepted only in plaintext mode (`payload.Message? ==> plaintext`), because the client always shows its own messages with the plaintext flag set.
- Navigation.Update: its contract states only the idle case and that no completed input request survives; the per-outcome behaviour is stated on `Navigation.HandleResult` and the lemmas after it.
- Navigation.React: the Gemini input, page and redirect branches are stated by `Navigation.InputPromptHandled`, `Navigation.SuccessShowsPage` and `Navigation.RedirectQueuesNavigation` rather than in its own contract.
- ParseContentOfFrames: it is a property of the corrected reader `ScorpionBlocks.ParseContentCorrected`; the client's reader, which drops a final empty block, is stated by `ScorpionBlocks.ParseContentAsWrittenOfFrames`.
- Status.ScorpionFromCode: its own contract states only where it is defined; `Status.ScorpionFromCodeFacts` states the code and payload of its result.

## Findings

| source | as written | input that shows it | evidently intended | confidence | as-written member | corrected member |
|---|---|---|---|---|---|---|
| src/handlers/scorpion.rs:170 | `while offset + 6 < response.len()` reads a block only when more than 6 bytes remain | the 6-byte response `00 00 00 00 00 00`, an empty paragraph, gives no blocks | read a block whenever at least 6 bytes remain, the minimum block size the comment on the line names | medium, not executed | ScorpionBlocks.EmptyFinalBlockDropped | ScorpionBlocks.ParseContentOfFrames |
| src/main.rs:431-436 | `current_url.join(&url)` is computed and unwrapped, but its result is discarded and the hint uses `current_url` | current `gemini://a/x`, redirect target `gemini://b/` (or `y.gmi`): the client re-requests `gemini://a/x` | navigate to the joined URL | high, not executed | Navigation.RedirectAsWrittenStaysPut | Navigation.RedirectTargetResolves |

The rest of the model follows the code as written: `ScorpionBlocks.ParseContent` reads blocks with `ScorpionBlocks.BlocksAsWritten`, and `Navigation.React` follows redirects with `Navigation.RedirectTargetAsWritten`. The corrected definitions are kept beside them with their properties proved: `ScorpionBlocks.ParseContentCorrected` with `ScorpionBlocks.Blocks`, and `Navigation.ReactCorrected` with `Navigation.RedirectTarget`.

With the bound corrected, the loop also reads a 6-byte tail whose attribute length runs past the end, such as `00 00 05 00 00 00`. The client would panic on that slice; the corrected reader reports it as truncated, while the loop as written never reads it and gives no blocks (`ScorpionBlocks.OverrunTailIgnored`).
