# A verified model of the Odoo MCP server core

The server answers MCP requests (JSON-RPC 2.0) by calling Odoo over XML-RPC. It builds no trees: a
non-allocating cursor (`sj.h`) is moved over the request, sub-objects are re-read with fresh cursors,
values are copied out with a second bracket scanner, argument text is printed again (`json.h`), and that
text is read a third time and compiled to XML (`odoo.c`). This project models that chain, the region
arena it allocates from (`arena.h`), and three algorithms of `nob.h`: Windows command-line quoting,
command chains, and the directory walk.

Main results:

- **End to end** (`EndToEnd.EndToEnd`). For every well-formed request object, however it is laid out and
  whatever follows it, the response and the body posted to Odoo are the ones its JSON tree means: last
  duplicate key wins, defaults filled in, arguments translated tree by tree. This holds exactly when the
  trees a call sends hold no NUL byte, at which the C strings would cut them. The meaning
  (`EndToEnd.Means`, `PlanOf`, `CarryOut`) is a function of trees and knows no cursor, text or offset.
- **Meaning preserved** (`XmlRpc.MeaningPreserved`, `XmlRead.DecodeRoundTrip`, `XmlRead.OneValueElement`).
  The converter's output is the translation of the tree a text was printed from; an independent decoder
  reads the value back if and only if its texts hold no `<` and no entity; and for any bytes without `<`,
  even malformed JSON, the output is one balanced element.
- **Cursor laws** for arbitrary bytes (`CursorLaws`): sibling independence with its exact condition,
  re-parsing in lockstep, totality; and the agreement of the two scanners (`RawCopy`, `Reread`). On
  well-formed texts sibling independence needs no condition (`Siblings.SiblingsOfText`).
- **Responses** (`Response.ResponseReadBack`): for every byte string, the response is a JSON-RPC object
  that reads back with the same cursor.
- **Arena** (`ArenaState.Replay`, `ArenaRuns.NestedRewind`, `ArenaRuns.RunSound`) over all runs, and heap
  classes that refine it; growing buffers on top of it (`JsonBufs`, `DynArrays`), and the texts of
  `mcp.c` written through them (`BufferedTexts`).
- **What goes out** (`Envelopes.CallReadBack`, `Answers.ResponseSays`). An independent reader of each posted
  body gets the call that was asked for, and the tree of each response is the answer to its request, for
  any bytes; `Answers.ParseErrors` and `Truncation.PrefixParses` say which requests are parse errors.
- **Quoting round trip** (`CmdQuote.LineRoundTrip`), **chain ownership and wiring**
  (`Chain.ClosedExactlyOnce`, `Chain.RunWires`, `Chain.RunVerdict`), **directory walk** (`WalkRun.WalkDir`,
  `WalkOrder.Traversal`).

## How the model is laid out

Bytes are `char`, C strings are NUL-free `string`s, and a pointer into a buffer is an offset into it.
Code that updates state in place is a class or a method with loops (`Readers.Reader`, `Arenas.Arena`,
`JsonBufs.JsonBuf`, `DynArrays.DynArray`, `ChainRun`, `WalkRun`, `XmlRpc.SjToXmlrpc`,
`Dispatch.DispatchTool`, `Mcp.Handle`), proved equal to a function of the old state; the laws are lemmas
about those functions.

| part | modules |
|---|---|
| `sj.h` | Cursor (what each call does), Readers (the C code), Tokens, CursorLaws, Siblings |
| JSON trees and texts | Json, JsonLaws, JsonParts |
| `odoo.c` | XmlRpc, XmlRead (an independent XML reader), Odoo, Envelopes |
| `mcp.c` | RawCopy, Reread, Dispatch, Mcp, EndToEnd, Response, Answers, Truncation |
| `json.h` | Escape, JsonBufs, BufferedTexts |
| `arena.h` | ArenaState (values), ArenaRuns (runs), Arenas (heap), DynArrays |
| `nob.h` | CmdQuote; Chain, ChainRun; Walk, WalkOrder, WalkRun |

## Where the code and its documentation differ

The model follows the code.

- The repository's README.md:18 lists `create_record` among the tools. The emptiness test of mcp.c:334-335 compares a
  container's `end` with its `start`, but `end` is one past the opening bracket, so every object looks
  empty and no request reaches `create` (`Dispatch.CreateIsUnreachable`).
- Sibling independence fails on some malformed texts: when `sj_iter_object` meets a key with a closing
  bracket right behind it (sj.h:140), it sets the sticky fault, and the rest of the parent is lost
  (`CursorLaws.SiblingLost`). `CursorLaws.SiblingIndependence` says that this is the only way it fails. The
  guard does not look at bracket kinds, so iterating an array as an object can run into it too.
- The comment at json.h:101-102 says that `jbuf_sj_str` does not escape. It escapes quotes and
  backslashes, so a slice that holds an escape is escaped twice. Text comes back verbatim exactly when it
  holds no backslash (`Escape.RequoteExact`, `EndToEnd.PassedVerbatim`).
- The comment at mcp.c:183-187 says that `sj_value_to_json` uses a fresh reader. It scans the raw bytes;
  `RawCopy.TwoScannersAgree` says when that is the same.
- A `JsonBuf` made with capacity 0 overflows by its final NUL at the first append; with any other capacity it
  never does (`JsonBufs.GrownFits`).
- mcp.h:54-55 promises a response to every request. For an initialized notification `mcp_handle` returns 0
  and writes nothing (mcp.c:457-461); every other input does get one (`Response.ResponseReadBack`).
- After `nob_chain_cmd` has returned false, the chain still names an input it has closed. A run therefore
  must stop there; ending it is legal exactly when it had no input (`Chain.EndAfterFailure`, and
  `Chain.InputClosedTwice` for a run of two commands).
- XML text is not escaped (odoo.c:22-25). A string with a closing tag in it breaks the output, and one with
  balanced tags does not (`XmlRead.TagInString`).

## Model

| member | source | states |
|---|---|---|
| Readers.Reader.constructor | sj.h:35-37 | A new reader stands at the start with depth 0 and no fault. |
| Readers.Reader.Copy | mcp.c:408 | A struct copy is in the same state as the original and shares only the bytes. |
| Readers.Reader.IsString | sj.h:45-53 | The comparison loop answers whether the buffer holds the word at the cursor, also next to its end. |
| Readers.Reader.SkipNumber | sj.h:72 | The loop stops at the first byte that cannot continue a number. |
| Readers.Reader.SkipString | sj.h:78-83 | The loop stops at the closing quote, past any escaped byte, or at the end of the buffer. |
| Readers.Reader.ReadToken | sj.h:63-114 | The value returned, and position, depth and fault afterwards, for every first byte of a token. |
| Readers.Reader.Read | sj.h:56-115 | The same for a whole call: a fault is sticky, separators are skipped, and the end of the buffer is a fault. |
| Readers.Reader.DiscardUntil | sj.h:118-124 | The reader after discarding to a depth. |
| Readers.Reader.IterArray | sj.h:127-132 | The answer, the element and the reader of one array step. |
| Readers.Reader.IterObject | sj.h:135-143 | The answer, key, value and reader of one object step, with its own fault for an object that ends after a key. |
| Tokens.SeparatorSkipped | sj.h:64-67 | A space, line feed, carriage return, tab, colon or comma in front of a token makes no difference to what is read. |
| Tokens.NumberRead | sj.h:69-73 | A number starts at a minus or a digit and runs to the first byte that is no digit, sign, point, `e` or `E`. |
| Tokens.StringRead | sj.h:75-85 | A string ends at the one quote that closes it, and is unclosed if there is none. |
| Tokens.BracketRead | sj.h:87-100 | Opening brackets of both kinds go a level deeper, closing ones up, and a closing one without a level is a fault of its kind. |
| Tokens.WordRead | sj.h:102-106 | The three words, each with its kind. |
| Tokens.UnknownRead | sj.h:102-111 | Any other byte is an unknown token, and the cursor stays in front of it. |
| CursorLaws.CursorTotal | sj.h:56-143 | On arbitrary bytes every slice lies inside the buffer, n fault-free reads advance by at least n bytes, more reads than bytes must end in a fault, and a fault freezes every later read, discard and iteration. |
| CursorLaws.ReadFacts | sj.h:56-115 | What a read says about depth: one up for a container, whose end is one past its opening bracket; one down for an end; never down otherwise. |
| CursorLaws.ApplyBelow | sj.h:118-143 | One iterator call on a nested container does not change where discarding to a shallower depth arrives. |
| CursorLaws.SiblingIndependence | sj.h:118-143 | After any sequence of iterator calls on nested containers, at any depth and however incomplete, the parent's next entry and all its later ones are those it would have had without them, if and only if no object iteration on the way met a key with a closing bracket right behind it. |
| CursorLaws.CutFault | sj.h:135-143 | A run of iterator calls leaves the object-end fault if and only if one of its object iterations could read a key and found a closing bracket behind it. |
| Siblings.SiblingsOfText | sj.h:118-143 | On a well-formed text, a client that iterates a container and the containers it gets out of it, arrays as arrays and objects as objects, in any order and as far as it likes, never meets that case, and leaves every container around it as it was. |
| CursorLaws.SiblingLost | sj.h:140 | The exception is real: in `[{0},5]` iterating the object makes the array end before 5. |
| CursorLaws.IterLower | sj.h:118-143 | One iterator step on a reader and on one that counts depth from a lower start gives the same slices, kinds, answer and position. |
| CursorLaws.Reparse | mcp.c:265-287 | A fresh reader at a container's first byte reads the same container and yields the same entries, in lockstep with depths that differ by a constant, to the same end or fault. |
| JsonLaws.ReadDoc | sj.h:56-115 | After any separators, a read returns exactly the token a well-formed text begins with. |
| JsonLaws.WalkDoc | sj.h:56-143 | Reading a well-formed text and walking all of it sees the tree it was printed from and ends right behind it; discarding it ends at the same place. |
| JsonLaws.EntriesOfObject | sj.h:135-143 | Iterating an object without walking its values meets exactly its fields, in order, without a fault. |
| JsonLaws.TreeOfText | sj.h:56-143 | With any separators and anything behind it, the cursor sees in a text the tree it was printed from. |
| XmlRpc.HasFloatMark | odoo.c:108 | The search answers whether the number text holds a `.`, `e` or `E`, which is what decides between `<int>` and `<double>`. |
| XmlRpc.SjToXmlrpc | odoo.c:89-160 | On any bytes, the XML is that of the tree a full walk of the value sees, and the shared reader is left where that walk leaves it. |
| XmlRpc.ArrayItems | odoo.c:127-137 | The loop collects the XML of all elements in order, and leaves the reader behind the array. |
| XmlRpc.ObjectMembers | odoo.c:139-155 | The loop collects the XML of all members in order, with their keys, and leaves the reader behind the object. |
| XmlRpc.JsonToXmlrpc | odoo.c:166-187 | The XML of what a C string means: an empty struct for no text, the text itself as a string if its first read fails, and its tree otherwise. |
| XmlRpc.MeaningPreserved | odoo.c:166-187 | For every tree and every printing of it, with any separators and anything behind it, the converter gives the translation of that tree. |
| XmlRpc.Fallbacks | odoo.c:168-184 | No text gives an empty struct, and a text whose first token cannot be read a string of itself. |
| XmlRead.LexXml | odoo.c:89-160 | The XML of a tree without `<` in its strings splits into exactly the tokens of the tree. |
| XmlRead.MeantFree | odoo.c:166-187 | A byte that the input does not contain does not appear in any string or key of what it means. |
| XmlRead.OneValueElement | odoo.c:89-187 | For any bytes without `<`, even malformed JSON, the output is one balanced `<value>` element and nothing else. |
| XmlRead.TagInString | odoo.c:22-25 | Why `<` is excluded, and why no condition on a string alone is exact: with `</string>` in a string the output is not one element, with `</string><string>` it is. |
| XmlRead.XmlFree | odoo.c:89-160 | A byte that neither the tags nor integers use, a NUL for one, is in the XML of a tree if and only if it is in one of its texts. |
| XmlRead.ValueReads | odoo.c:89-160 | Whatever tokens a decoder accepts as a value, their text is at least as long as the XML of the value it gets, and longer if that value holds a `<`. |
| XmlRead.DecodeRoundTrip | odoo.c:89-160 | An independent decoder of the XML recovers the value of the tree, with integers and doubles told apart, if and only if none of its texts holds a `<` and resolving entities changes none of them; without `<` it recovers the value with its entities resolved, so a bare `&` does no harm. |
| Text.DecimalRoundTrip | json.h:114-119 | Every 64-bit integer printed in decimal is read back by `strtoll` as itself. |
| Text.StrtollReads | mcp.c:49-56 | White space, a sign or none, digits, and anything else behind them: the number the digits stand for, and the 64-bit limits beyond those. |
| Text.DecimalReads | json.h:114-119 | A printed integer is read back whatever follows it, and is clamped to 64 bits. |
| Text.DigitsValue | json.h:114-119 | The printed digits stand for the number in decimal, without a leading zero. |
| Text.DecimalLength | json.h:114-119 | Its text has at most 20 bytes, so it fits every scratch buffer. |
| Escape.EscapeRoundTrip | json.h:64-85 | Whatever surrounds it, the cursor reads an escaped string as one token that ends at its closing quote; unescaping that token by section 7 of RFC 8259 gives the original, and it holds no control byte. |
| Escape.RequoteRaw | json.h:103-112 | Whatever bytes a slice has, re-quoting it gives a well-formed string body. |
| Escape.RequoteExact | json.h:101-112 | A slice the cursor returned is written back verbatim if and only if it holds no backslash. |
| Escape.RequoteMeans | json.h:103-112 | A re-quoted slice stands for exactly the bytes of the slice, unless it holds a control byte, which a string must not. |
| RawCopy.RequoteSlice | json.h:103-112 | The loop over a slice of the request writes its re-quoted bytes between quotes. |
| RawCopy.ValueToJson | mcp.c:188-232 | The copied text of a value of each kind; for containers, the bytes up to where the bracket scan stops. |
| RawCopy.ScanToken | mcp.c:211-224 | Over any one token the cursor accepts, the raw scan moves to the same position, with the bracket count following the cursor's depth. |
| RawCopy.TwoScannersAgree | mcp.c:206-225 | Whenever the cursor can discard a container to its close, on any bytes, the raw scan from its first byte stops at exactly that position. |
| Reread.TreeWindow | mcp.c:225-229 | A reader over a copied window of the bytes, counting depth from zero, walks the same tree to the same place. |
| Reread.CopyRereads | mcp.c:188-232 | If the cursor can walk a container to its close, the copy is exactly the bytes it passed over, and a fresh reader sees the same tree in it. |
| Odoo.Execute | odoo.c:228-266 | Without a login nothing is posted; otherwise exactly one `execute_kw` envelope is, whose last two parameters translate the two texts; a network error or a fault is an error, and any other body is returned, cut to the buffer. |
| Envelopes.CallReadBack | odoo.c:237-247 | A decoder of whole XML-RPC calls reads every posted body as `execute_kw` with the database, user, key, model, method and the two argument values, in this order, entities resolved. |
| Envelopes.PostedCall | mcp.c:372-373 | A tool that is not refused posts exactly one body, and it reads back as that tool's call. |
| Envelopes.RequestPosts | mcp.c:388-538 | For every well-formed request that plans a call, the one body posted reads back as the planned call with the values of its trees. |
| Response.ReceivedIs | odoo.c:253-265 | A network error or a body with `<fault>` in it never reaches the client; any other does, up to a NUL and cut to 262143 bytes. |
| Dispatch.CollectFields | mcp.c:254-287 | The loop leaves in each variable the last value of its key among all the entries the iterator yields. |
| Dispatch.SelectCall | mcp.c:289-365 | The Odoo model, method, args and kwargs texts for each tool, or the refusal with its message. |
| Dispatch.DispatchTool | mcp.c:236-384 | The tool result and the bodies posted, for arguments at any place of any byte string. |
| Dispatch.CreateIsUnreachable | mcp.c:332-341 | No request, well-formed or not, makes `create_record` post anything; the reply is always an error. |
| Mcp.LastThree | mcp.c:431-435 | The loop leaves in each variable the last value of its key, and null for an absent key. |
| Mcp.ListTools | mcp.c:466-479 | The loop writes all tools in order, comma-separated, with names and descriptions escaped. |
| Mcp.HandleCall | mcp.c:485-528 | The `tools/call` branch: invalid params, missing name, name cut to 63 bytes and at a NUL, omitted arguments. |
| Mcp.Respond | mcp.c:394-531 | The whole response to any byte string, whether it parsed, and the bodies posted while making it; the probing copy of the reader leaves the real one alone. |
| Mcp.OmittedArguments | mcp.c:515-526 | Omitted arguments are read from `{}` for a length that is the difference of unrelated pointers: for every such length but zero and whatever bytes lie behind, the reply is the one for no arguments. |
| Mcp.Handle | mcp.c:388-538 | For any request bytes and any non-empty output buffer: the number returned, the bytes written with their NUL, and the bodies posted. A parse error that does not fit is not written, any other response is cut to the buffer, and a notification leaves it alone. |
| EndToEnd.LookUp | mcp.c:276-287 | Looking a key up among the entries the cursor yields is looking it up in the tree. |
| EndToEnd.ValueJsonAt | mcp.c:188-232 | The raw copy of any value of a well-formed request is, as a C string, the text of that value, a string with its backslashes doubled. |
| EndToEnd.PrintNulFree | mcp.c:225-229 | A text holds a NUL byte if and only if a string or key of its tree does. |
| EndToEnd.FreshEntries | mcp.c:264-276 | Re-reading an object value with a fresh reader lists exactly its own fields. |
| EndToEnd.OptionsText | mcp.c:304-322 | The printed search options are read back as the tree with exactly those members. |
| EndToEnd.CallMatchesPlan | mcp.c:296-365 | The texts each tool builds say, when they are read again, exactly the trees of the tool's plan, if these hold no NUL byte; a refusal is a refusal with the same message. |
| EndToEnd.DispatchMeans | mcp.c:236-384 | Dispatching the arguments object is carrying out the plan of its tree, and posts another body when a NUL byte cuts one of its texts. |
| EndToEnd.EndToEnd | mcp.c:388-538 | For every well-formed request object, in any layout and with anything behind it, the response and the body posted to Odoo are those its JSON tree means, if and only if the trees a call sends hold no NUL byte. |
| EndToEnd.PassedVerbatim | mcp.c:193-198 | A string member reaches Odoo as it was given if and only if it holds no backslash. |
| EndToEnd.IntegerPassed | mcp.c:310-315 | An integer read, printed, read and printed again through two scratch buffers goes out as its own lexeme would. |
| Response.QuotedJson | json.h:64-85 | An escaped C string is the JSON text of a string that unescapes to it. |
| Response.ThreeReadBack | mcp.c:65-99 | A response with any JSON body reads back as exactly three members: version, id and that body. |
| Response.DispatchedReports | mcp.c:236-384 | For any bytes, the tool result is a JSON text; read back, it reports an error with the refusal's message exactly when the call was refused, and otherwise one text block that unescapes to what Odoo answered or to the error text. |
| Response.ReadTokenOk | sj.h:69-85 | On any bytes, a number or string the cursor returns is well formed, so it can be echoed. |
| Response.ResponseReadBack | mcp.c:388-538 | For every byte string that is not an initialized notification, iterating the response with the same cursor yields `jsonrpc`, `id`, and exactly one of `result` and `error`, without a fault; the id is the request's number, its re-quoted string, or null. A notification gets nothing. |
| Answers.ResponseSays | mcp.c:388-538 | For every byte string that is not an initialized notification, the whole tree of the response: version, id, and the result of the method asked for, or the error with its code and message. |
| Answers.ParseErrors | mcp.c:403-422 | The response has code -32700, and then id null, if and only if the request is not an object or its first member cannot be read. |
| Truncation.PrefixParses | mcp.c:403-412 | A well-formed request cut off anywhere still parses if and only if it reaches behind the first token of its first member's value. |
| Truncation.TruncatedRequest | mcp.c:415-422 | So a request cut off inside its first member is answered with a parse error. |
| Response.ToolsResultJson | mcp.c:464-482 | The list holds exactly the registry's tools in order; each name and description unescapes to the registry's string under its own key, and each schema is the registry's tree. |
| Response.InitResultJson | mcp.c:443-455 | The answer to `initialize` is the tree with the protocol version, the tools capability, and the server's name and version. |
| Response.IdVerbatim | mcp.c:65-76 | Read from the response, the id is the request's id byte for byte if and only if that is a number or a string without a backslash; an id of any other kind becomes null. |
| ArenaState.AllocParts | arena.h:294-321 | Beginning, making room and taking words, one after the other, is one allocation. |
| ArenaState.AllocStep | arena.h:294-321 | A new block is at least as large as asked for, lies in use, and shares no word with any block in use; those stay in use. |
| ArenaState.AllocPlace | arena.h:294-321 | A block goes to the first region from the end on that has room, right behind what is in use there, or else to a new region of 8192 words or its own size; less than a word is lost to rounding and nothing else changes. |
| ArenaState.RewindRestores | arena.h:390-427 | Rewinding any later state to a snapshot gives back the snapshot's state, up to trailing regions that are empty. |
| ArenaState.Replay | arena.h:294-321 | After rewinding to a mark, the same sequence of sizes gets the same blocks and ends in the same state, so no region is made. |
| ArenaRuns.RunSound | arena.h:294-427 | Over any run of allocations, writes and properly nested snapshot/rewind scopes, live blocks are in use and pairwise disjoint, counts stay within capacities, and regions behind the end are empty. |
| ArenaRuns.RunKeeps | arena.h:390-427 | A run that does not write to a live block leaves its bytes alone. |
| ArenaRuns.NestedRewind | arena.h:390-427 | A scope gives back the allocation state up to trailing empty regions, the live blocks, and the bytes of every block that was live before it. |
| Arenas.Region.constructor | arena.h:294-321 | A new region is empty, unlinked and has the bytes of its capacity. |
| Arenas.CopyBytes | arena.h:329-331 | The copy loop writes exactly those bytes and no others. |
| Arenas.Arena.constructor | arena.h:298-304 | A zeroed arena has no regions. |
| Arenas.Arena.Append | arena.h:310-316 | A new region goes behind the last one and becomes the end; the others keep their place. |
| Arenas.Arena.Begin | arena.h:298-304 | An unused arena gets its first region, large enough; a used one is left alone. |
| Arenas.Arena.Seek | arena.h:306-308 | The loop moves the end to the first region with room, or to the last one. |
| Arenas.Arena.MakeRoom | arena.h:306-316 | Afterwards the end is a region with room, an old one if there is one. |
| Arenas.Arena.Take | arena.h:318-320 | The words are taken from the end region and from no other. |
| Arenas.Arena.Alloc | arena.h:294-321 | The linked list goes through exactly the pure allocation step; the regions of before stay the first ones, and any other is new. |
| Arenas.Arena.AllocBlock | arena.h:294-321 | For the holders of earlier blocks: they keep their blocks and bytes, and the new block is apart from all of them. |
| Arenas.Arena.AllocCopy | arena.h:326-332 | A new block that starts with a copy, apart from all earlier blocks, which keep their bytes. |
| Arenas.Arena.Realloc | arena.h:323-333 | The same block if it need not grow; otherwise a larger one that starts with the same bytes. |
| Arenas.Arena.Write | json.h:52-54 | A client's write into its own block changes no byte of any other. |
| Arenas.Arena.Snapshot | arena.h:390-403 | The mark is the end region and its count, or nothing for an unused arena. |
| Arenas.Arena.EmptyFrom | arena.h:407-409 | The loop empties exactly the regions from there on. |
| Arenas.Arena.Reset | arena.h:405-412 | All regions are kept and empty, and the end is the first one. |
| Arenas.Arena.Rewind | arena.h:414-427 | The list goes through exactly the pure rewind to the mark. |
| DynArrays.DynArray.constructor | arena.h:115-117 | A zeroed dynamic array is empty. |
| DynArrays.DynArray.MakeRoom | arena.h:115-124 | After the doubling loop there is room for the new items, the capacity is at most the initial one or less than twice what is needed, and the items are the same. |
| DynArrays.DynArray.AppendMany | arena.h:113-127 | The new items, of any size each, follow the old ones, and every other block of the arena keeps its bytes. |
| DynArrays.DynArray.Append | arena.h:98-110 | The same for one item, with its own growth rule. |
| JsonBufs.GrownFits | json.h:45-54 | The bytes and the final NUL fit after growth if and only if the capacity was not zero. |
| JsonBufs.GrowthIsLinear | json.h:45-54 | Over any sequence of appends fewer than two bytes are copied per byte held, and the capacity stays within the initial one or three times the length. |
| JsonBufs.JsonBuf.constructor | json.h:35-42 | A new buffer is empty, in a block of its own, and all earlier blocks keep their bytes. |
| JsonBufs.JsonBuf.Grow | json.h:46-51 | The contents move to a new block of the grown capacity; all other blocks keep their bytes. |
| JsonBufs.JsonBuf.Raw | json.h:44-56 | The contents are the old ones and the new bytes, with a NUL behind them in bounds; length, capacity and copying stay bounded; no other block is touched. |
| JsonBufs.JsonBuf.Str | json.h:64-85 | The escaped string, between quotes, follows the old contents; no other block is touched. |
| JsonBufs.JsonBuf.SjStr | json.h:103-112 | The re-quoted slice, between quotes, follows the old contents; no other block is touched. |
| JsonBufs.JsonBuf.Key | json.h:129-133 | The escaped key and a colon follow the old contents; no other block is touched. |
| BufferedTexts.BuildSearchKwargs | mcp.c:304-322 | A buffer of its own in the arena ends up holding exactly the options text; every other block keeps its bytes. |
| BufferedTexts.PutId | mcp.c:65-76 | The id, re-emitted by its kind, follows the old contents of the buffer; no other block is touched. |
| BufferedTexts.PutOk | mcp.c:78-86 | The success response follows the old contents of the buffer; no other block is touched. |
| BufferedTexts.PutErr | mcp.c:88-99 | The error response follows the old contents of the buffer; no other block is touched. |
| CmdQuote.QuoteInto | nob.h:1193-1217 | The loop with its backslash counter writes the quoted form of one argument. |
| CmdQuote.QuoteOne | nob.h:1187-1218 | One argument is written plain if it is non-empty and needs no quotes, and quoted otherwise. |
| CmdQuote.Quote | nob.h:1182-1220 | All arguments up to the first NULL, separated by blanks, follow what the builder held. |
| CmdQuote.PlainExactly | nob.h:1187-1218 | An argument is written as it is if and only if it is not empty and holds none of the five bytes; any other is written between quotes. |
| CmdQuote.SpaceBetween | nob.h:1188 | Each further argument is written behind one space. |
| CmdQuote.ReadBody | nob.h:1196-1217 | Inside quotes, a reader by the 2n and 2n+1 backslash rules gets the argument back, whatever backslashes are pending. |
| CmdQuote.QuoteRoundTrip | nob.h:1182-1220 | For every list of arguments, empty ones and trailing backslashes included, splitting the part behind the program name gives back the list, under either rule for paired quotes. |
| CmdQuote.LineRoundTrip | nob.h:1182-1220 | The whole line, program name included, splits back into exactly the program and its arguments if and only if the program name holds no quote and does not both need quotes and end in a backslash. |
| ChainRun.Os.CloseFds | nob.h:1339-1341 | The loop closes each collected descriptor, in order. |
| ChainRun.ChainBuilder.BeginChain | nob.h:1292-1302 | The chain and the log of system calls afterwards, on success and failure. |
| ChainRun.ChainBuilder.CmdChain | nob.h:1304-1344 | The same for adding a command, on every path through its calls. |
| ChainRun.ChainBuilder.OpenOutputs | nob.h:1386-1409 | The descriptors opened for the last command, where its output and errors go, and whether all went well. |
| ChainRun.ChainBuilder.EndChain | nob.h:1355-1427 | The same for ending the chain, on every path through its calls, the wait for the last process among them. |
| Chain.CmdOwns | nob.h:1304-1344 | Adding a command uses and closes only open descriptors; afterwards the chain owns its next input, or nothing if the call failed. |
| Chain.EndOwns | nob.h:1355-1427 | Ending a chain leaves nothing open on any path. |
| Chain.RunOwns | nob.h:1292-1427 | On every path of a run, success or first failure, only open descriptors are used or closed, and none is left open. |
| Chain.LiveBalance | nob.h:1339-1341 | In a legal log, each descriptor is closed as often as it is opened, but for those still open. |
| Chain.ClosedExactlyOnce | nob.h:1292-1427 | Over a whole run, successful or not, each descriptor it opened is closed exactly once, and nothing else is closed. |
| Chain.EndAfterFailure | nob.h:1315-1343 | Ending a chain whose last command call failed is legal if and only if it had no input. |
| Chain.InputClosedTwice | nob.h:1315-1343 | Two commands and an input file: when the pipe cannot be made, ending the chain all the same closes the input a second time. |
| Chain.RunWires | nob.h:1292-1427 | The processes started form the beginning of the pipeline: process i runs command i, its output and process i+1's input are the two ends of one pipe, errors follow output where asked; a successful run has started all, the last with the files it was told to use. |
| Chain.RunVerdict | nob.h:1292-1427 | A run returns true if and only if every call it makes succeeds; it makes none after the first that fails, and a successful one has made all that its commands and options ask for. |
| Chain.EndVerdict | nob.h:1355-1427 | The same for ending a chain. |
| Chain.RunWaits | nob.h:1411-1419 | A successful synchronous run has started its last command and then waited for it; an asynchronous one has started it. |
| Walk.PassConcat | nob.h:2055-2078 | A pass over two traversals is a pass over the first and, if nothing stopped it, over the second. |
| Walk.PassIsPrefix | nob.h:2024-2107 | Without skips the visits are a prefix of the traversal, and all of it when nothing stops them. |
| Walk.PostSkip | nob.h:2084-2098 | In a post-order traversal skipping is the same as going on. |
| Walk.PostHasNoneBelow | nob.h:2084-2098 | In the post-order traversal of any tree nothing of a subtree follows its root. |
| WalkOrder.Traversal | nob.h:2024-2107 | The traversal has every node of the tree exactly once, under its path from the root and its level, parents before or after what lies below and siblings in directory order; unreadable directories break it where their entries would be; and what a skip jumps over is exactly what lies below. |
| WalkOrder.PassVisits | nob.h:2045-2050 | A pass visits the first place, then the next one or, after a skip, the one behind all that lies below, and ends at an answer that stops or fails it, at a broken place, or behind the last. |
| WalkOrder.DotsLeftOut | nob.h:2062-2064 | Of the names of a directory exactly `.` and `..` are passed over. |
| WalkRun.Visiting | nob.h:2038-2050 | The callback sees exactly the path in the buffer, and its answer becomes the result, the stop flag and whether this file is finished. |
| WalkRun.Children | nob.h:2055-2080 | The loop visits the subtrees of all entries but `.` and `..`, in order, until one fails or stops. |
| WalkRun.WalkFile | nob.h:2024-2107 | For any tree and any answers, the visits are those of one pass over its flat pre-order or post-order traversal, each with its root-to-node path; the result and the stop flag say how it ended; the buffer is restored on every return. |
| WalkRun.WalkDir | nob.h:2109-2120 | The same from the root, with level 0; only a failure is reported as one. |

## Left out

- `net.c`, `main.c`, `workers/worker.js`: sockets, TLS, the HTTP gateway and the WASM host; the network is a function from a request body to a response or an error.
- Odoo.Execute: the login of odoo.c:191-224 is a parameter (the user id it returns), because its caching and substring searches are one branch each.
- Odoo.Execute: a response body longer than the buffer, and the bytes behind a NUL in one, are cut as the C strings cut them; the reading of the body by `net_http_post` itself is not part of this model.
- XmlRpc.SjToXmlrpc: the `%g` printing of floating-point numbers is a function parameter of the model, from the lexeme to the printed text.
- XmlRead.OneValueElement: texts that contain `<` are excluded, and the converse is not stated: whether the output is one element then depends on how the tags in different strings happen to match, which is no shorter to say than the property (`TagInString`).
- EndToEnd.EndToEnd: that the trees must be free of NUL is proved under the assumption that `%g` never prints a NUL byte; the model name and the tool name count as C strings, which end at one.
- Mcp.HandleCall: omitted arguments are the two-byte text `{}`; `OmittedArguments` says that the length the code really computes makes no difference unless it is zero.
- Mcp.Handle: an output buffer of no bytes, for which the code subtracts one from zero.
- Response.ResponseReadBack: the tool schemas are assumed to be JSON texts; the registry's strings themselves are parameters.
- Dispatch.SelectCall: argument text is built in plain strings; `BufferedTexts` builds the search options and the responses in an arena, and the texts of the other tools come from `arena_sprintf`, which is not part of this model.
- Readers.Reader.Read: the depth of a scalar value, which the code leaves unset, is 0; `int` and `size_t` wrap-around of depths and lengths is not modelled.
- Arenas.Arena.Alloc: sizes are unbounded and a new region can always be made; the memory backends, `arena_free`, `arena_trim` and `arena_sprintf` are not part of this model.
- JsonBufs.JsonBuf.Raw: an initial capacity of zero is excluded by the constructor; `GrownFits` says why. `jbuf_sv`, `jbuf_bool` and `jbuf_null` only repeat these patterns.
- Chain.RunOwns: a new descriptor gets a number never used before; the system may reuse numbers of closed ones.
- ChainRun.ChainBuilder.EndChain: waiting for room among asynchronous processes is one call that may fail; the list of those processes and the reset of the caller's command are not modelled.
- WalkRun.WalkFile: the file system does not change during the walk; opening and closing directory handles, the Windows separator and file types other than directory are not distinguished further.
- `sj_location`, `sv.h`, `rc.h`, `config.h`: only easy members.
- The rest of `nob.h` and `nob.c` (file copying, process start, logging): operating-system calls.
- Rego policies, Terraform, shell scripts and documents: configuration and deployment.
