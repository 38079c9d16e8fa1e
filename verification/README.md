# Bambu farm client and server: a verified model

This project models the parts of the Bambu farm client plugin and server that carry real algorithms,
and proves what they promise.  `dafny verify dfyconfig.toml` checks all of it.

- **Text surgery on JSON.**  The client edits JSON as text, with `find`, `insert` and `replace`.
  `Text` has those operations, `Json` and `JsonSpot` the trees and their compact print,
  `StatusRewrite` and `StatusTree` the rewriting of status messages and the tree edit it amounts to,
  `StatusLegal` and `StatusReads` when its result is JSON and which tree it then denotes,
  `PrinterMetadata` the renaming of announced printers, `ProjectCommand` the print command and
  `CommandContents` what it says.
  `Escape`, `JsonReader`, `JsonStrings`, `JsonKeys` and `Decimal` say what escaping, reading and
  searching mean (RFC 8259); `JsonTokens`, `JsonCuts`, `JsonEdit`, `JsonWords` and `SpotTokens` say
  the same of texts with blanks, by way of their tokens.
- **Remote names.**  `RemoteNames`: FNV-1a (section 2 of draft-eastlake-fnv), hexadecimal suffixes,
  sanitising and normalising.
- **Local state.**  `LocalState` is the tab-separated files, `Stores` the two stores on top of them.
- **Tunnel.**  `TunnelReply` builds the download reply, `TunnelProtocol` cuts it, `TunnelFrames` and
  `TunnelContents` say what a reader of reply and frames gets, `TunnelBridge` queues and drains them.
- **Concurrency.**  `Connections` (the shared cells of the connections, with `ConnectionRuns` for what
  holds over whole runs and `ConnectionEvents` for which disconnects are reported) and `CameraTable` (the camera stream table) are step machines with one step
  per lock section; `CameraReader` is the packet reader under any schedule and the bounded queue
  behind it.
- **Server.**  `Discovery` (scan candidates), `PrinterMerge`, `Upload` (both ends of an upload).
- **Shared.**  `Wrappers` and `Arithmetic`.

Loops and in-place updates of the source are methods with loops and classes with fields, proved
against functions; the lemmas are about those functions.

## How to read the model

- A C++ `std::string` is a `string` with one `char` per byte.  Rust strings in `PrinterMerge` are
  Unicode.  A JSON string is kept as its raw body, so every compact JSON text is the print of one tree.
- File contents, network replies, camera bytes, read schedules and map walk orders are parameters:
  results hold for all of them.  `order` is the order in which an `unordered_map` is walked.
- In `Connections` a connect call draws a fresh generation (the source takes nanoseconds) and its
  channel is named after it.  Calls of connect and disconnect do not overlap each other; tasks, sends
  and the clearing of the sender map by the init loop interleave freely.
- serde_json sorts the members of an object (it is used without `preserve_order`); the extraction
  lemmas `ExtractsInteger` and `ExtractsString` hold in any order.

## What turned out not to hold

- Rewriting a status message is not idempotent for a job id that reads as a quoted `ipcam`
  (`TrapSprings` in `StatusRewrite`); `RewriteIdempotentIff` has the exact condition.
- A legal status message can be rewritten to text that is not JSON, because the code inserts a member
  and a comma after the next brace it finds, which may open an empty object or stand in a string
  (`RewriteSpoils`); `RewriteLegalIff` has the exact condition for every message.
- Renaming a printer can change its `dev_id`, and a second renaming can then change the name again
  (`TrapUnsafe` and `TrapSprings` in `PrinterMetadata`); `IdKeptIff` and `OverrideSettlesIff` have the
  exact conditions.
- An accepted send can go to a superseded connection, because the sender is looked up and used in two
  steps (`SupersededSend`); `AcceptedSendReaches` says exactly which steps in between make it so.
- A path with a quote, backslash or control character does not come through the frame headers
  (`PathKeptIff`), and a reply with a negative sequence number is never cut (`ReplySplits`).
- A command with a control character other than newline, return and tab, or with an AMS setting that
  looks like JSON and is not, does not read as what was meant (`CommandReadsIff`).
- A job with a tab or newline in a text, or a printer name with a newline or an id with a tab, does not
  survive the file (`PersistLoadIff`, `PersistLoadNamesIff`).
- A netmask with at least 24 ones that leave a gap in its first 24 bits escapes the limit of
  254 addresses for each interface (`WideMask`); `AddedIff` has the exact condition.
- A read that fails half-way ends an upload without an error, and the server accepts the shorter file
  (`CutShort`); `Transfer` says exactly which schedules deliver the whole file.

## Model

| member | source | states |
|---|---|---|
| StatusRewrite.CapabilityIdempotent | bambu-farm-client/cpp/local_print_context.cpp:101-136 | The capability step never changes its own output, for every text, well formed or not |
| StatusRewrite.RewriteIdempotent | bambu-farm-client/cpp/local_print_context.cpp:99-186 | Rewriting a status message twice is rewriting it once, for every text, when no id of the job reads as a quoted `ipcam` |
| StatusRewrite.RewriteIdempotentIff | bambu-farm-client/cpp/local_print_context.cpp:99-186 | The rewriting settles in one pass on every message exactly when no id of the job reads as a quoted `ipcam` |
| StatusRewrite.TrapSprings | bambu-farm-client/cpp/local_print_context.cpp:111-133 | For any such id, a message that is a legal JSON tree and that a second rewriting changes |
| StatusTree.RewriteIsTreeEdit | bambu-farm-client/cpp/local_print_context.cpp:99-186 | For a compact message whose first `"print"` is the key of a non-empty object anywhere in the tree, with no ipcam word after it, and for any active job or none, the text edit prints the same tree with those of the four id members that are not mentioned yet, and then the ipcam member, at the front of `print`; nothing else changes |
| StatusTree.RewriteAddsCapability | bambu-farm-client/cpp/local_print_context.cpp:101-145 | Without an active job the same edit adds the ipcam member alone, whichever ids the message carries |
| StatusTree.RewriteExtendsIpcam | bambu-farm-client/cpp/local_print_context.cpp:99-186 | When the first ipcam word after `print` is the key of a non-empty object, the text edit puts the missing ids at the front of `print` and the file member at the front of that object, unless the word `file` stands before its first closing brace; nothing else changes |
| StatusTree.EarlyFileFlat | bambu-farm-client/cpp/local_print_context.cpp:115-121 | In an ipcam object without braces inside, that exception is the one meant: some field shows the word `file` |
| StatusReads.LegalEditable | bambu-farm-client/cpp/local_print_context.cpp:99-186 | Every compact legal message whose first `"print"` is the key of a non-empty object is one that these tree edits cover |
| JsonEdit.InsertLegalIff | bambu-farm-client/cpp/local_print_context.cpp:118-133 | Putting members with their commas after a brace of any JSON text, blanks and all, leaves a JSON text exactly when that brace stands outside strings and opens an object of the tree that has a member |
| StatusLegal.RewriteLegalIff | bambu-farm-client/cpp/local_print_context.cpp:99-186 | Any JSON text is rewritten to a JSON text exactly when each brace after which the code inserts opens an object with a member and the ids it adds are printable; the new text then denotes the old tree with the new members at the front of just those objects |
| StatusReads.RewriteSpoils | bambu-farm-client/cpp/local_print_context.cpp:111-127 | The message `{"print":{"ipcam":1,"b":{}}}` is legal and its rewriting is not: the file member goes into the empty object |
| StatusReads.RewriteReadsIff | bambu-farm-client/cpp/local_print_context.cpp:99-186 | Any JSON text, blanks and all, for a tree whose first word `print` is the key of an object with no word `ipcam` in or after it is rewritten to a text for the tree with the missing ids and the ipcam member in that object, exactly when the object is not empty and the ids added are printable |
| StatusReads.ExtendReadsIff | bambu-farm-client/cpp/local_print_context.cpp:99-186 | The same when the first word `ipcam` in it is the key of an object: the new tree has the missing ids and, in the ipcam object, the file member, exactly when that object is not empty and the ids added are printable |
| StatusReads.EarlyFileIff | bambu-farm-client/cpp/local_print_context.cpp:115-121 | For every legal ipcam object, nested or not, the code sees the word `file` exactly when a key or string of it shows the word before the first closing brace in print order, braces inside strings included |
| Stores.JobReachesMessage | bambu-farm-client/cpp/local_print_context.cpp:138-185 | For any message that the tree edit covers: with an active job stored under the device, those of the four ids that the message does not show yet stand in front of the print object, project, profile, subtask and task in this order, each under its own key as a string for the stored text, and then the ipcam member with its three file settings; without an active job the ipcam member alone |
| Json.PrintMentions | bambu-farm-client/cpp/local_print_context.cpp:102-111 | In printed JSON, `find` of a quoted plain word succeeds exactly when some key or string of the tree shows that word |
| Escape.EscapeText | bambu-farm-client/cpp/print_job.cpp:149-176 | `json_escape` as its loop over characters, equal to the escaping function whose inverse is proved below |
| Escape.EscapeQuotes | bambu-farm-client/cpp/print_job.cpp:149-176 | Escaped text has a backslash before every quote and holds no newline |
| Escape.EscapeNames | bambu-farm-client/cpp/print_job.cpp:149-176 | Escaping neither hides nor invents a quoted plain word |
| JsonStrings.EscapedValid | bambu-farm-client/cpp/print_job.cpp:149-176 | Escaped text is a legal JSON string body (section 7 of RFC 8259) exactly when it has no control character besides newline, return and tab |
| JsonStrings.DecodeEscape | bambu-farm-client/cpp/print_job.cpp:149-176 | Decoding an escaped text gives the text back |
| ProjectCommand.BuildProjectFileCommand | bambu-farm-client/cpp/print_job.cpp:303-334 | The command text, built by appending, is the print of its members in order |
| ProjectCommand.CommandReadsIff | bambu-farm-client/cpp/print_job.cpp:231-334 | For all parameters a JSON reader gets exactly the command tree if and only if plate path, display name and remote name hold no control character besides newline, return and tab, and each AMS setting is blank, printable text, or wholly the JSON value it looks like; bad names leave nothing to read at all, and good ones decode to the text that went in |
| CommandContents.CommandHolds | bambu-farm-client/cpp/print_job.cpp:303-334 | What a reader of a readable command finds, from the parameters alone: 12 members in order, each once and under its own key, namely sequence number 0, command, plate path, display name and address as strings that decode to these texts, the plate number counted from 0, and the six flags; then each AMS setting, absent, raw or quoted |
| Decimal.DigitsWritten | bambu-farm-client/cpp/print_job.cpp:314 | Numbers are written with their digits from the highest |
| CommandContents.DisplayIs | bambu-farm-client/cpp/print_job.cpp:231-249 | The display name is the first of project name, task name, and the stems of destination, FTP file, local file and remote name whose source is not all white space |
| CommandContents.StripIs | bambu-farm-client/cpp/print_job.cpp:85-100 | A stem is the name without one of the three package endings, the longest first, in any case |
| CommandContents.TrimIs | bambu-farm-client/cpp/print_job.cpp:31-40 | Trimming takes away all white space at both ends and nothing else |
| CommandContents.LooksIff | bambu-farm-client/cpp/print_job.cpp:42-54 | A setting is taken for JSON exactly when it starts as an array, object, string or number does, or is one of the three literal words |
| CommandContents.JsonLooks | bambu-farm-client/cpp/print_job.cpp:42-54 | Every JSON text, white space around it, is taken for JSON |
| ProjectCommand.TrimAscii | bambu-farm-client/cpp/print_job.cpp:31-40 | Trimming from both ends, loop by loop |
| ProjectCommand.AppendJsonField | bambu-farm-client/cpp/print_job.cpp:42-64 | An AMS field is left out when blank, embedded raw when it looks like JSON, and escaped and quoted otherwise |
| RemoteNames.ShortContentSuffix | bambu-farm-client/cpp/print_job.cpp:119-144 | The 8192-byte chunked hash loop is one FNV-1a fold over the whole file, printed as eight hexadecimal digits |
| RemoteNames.ShortPathSuffix | bambu-farm-client/cpp/print_job.cpp:102-117 | The same for the bytes of a path |
| RemoteNames.PathBytesAre | bambu-farm-client/cpp/print_job.cpp:102-112 | The bytes hashed for a path are its characters |
| RemoteNames.FnvInjective | bambu-farm-client/cpp/print_job.cpp:130-139 | Hashing the same bytes from different states gives different states, because the FNV prime has an inverse modulo 2^32 |
| RemoteNames.OneByteShows | bambu-farm-client/cpp/print_job.cpp:130-139 | Contents that differ in exactly one byte have different hashes |
| RemoteNames.Hex8Injective | bambu-farm-client/cpp/print_job.cpp:141-143 | Different 32-bit hashes print as different eight-digit texts |
| RemoteNames.SameNameIff | bambu-farm-client/cpp/print_job.cpp:251-272 | Two readable packages of the same job get the same remote name exactly when their contents have the same hash |
| RemoteNames.OneByteRenames | bambu-farm-client/cpp/print_job.cpp:251-272 | Two packages that differ in one byte get different names; equal packages get the same name |
| RemoteNames.SanitizeRemoteFilename | bambu-farm-client/cpp/print_job.cpp:186-217 | The in-place replacement of reserved characters and the two trimming loops |
| RemoteNames.SanitizeCleans | bambu-farm-client/cpp/print_job.cpp:186-217 | A sanitised name is not empty, has no reserved character, no leading dot or blank and no trailing blank |
| RemoteNames.SanitizeIdempotent | bambu-farm-client/cpp/print_job.cpp:186-217 | Sanitising changes nothing exactly on clean names, so it is idempotent |
| RemoteNames.NormalizePackages | bambu-farm-client/cpp/print_job.cpp:219-229 | A normalised name is a clean package name with a non-empty stem before `.gcode.3mf`; exactly those names are left alone |
| RemoteNames.NormalizeIdempotent | bambu-farm-client/cpp/print_job.cpp:219-229 | Normalising twice is normalising once |
| RemoteNames.ResolvedNamesClean | bambu-farm-client/cpp/print_job.cpp:251-289 | Every name given to a remote file is clean, whatever the parameters |
| RemoteNames.PublishedValues | bambu-farm-client/cpp/print_job.cpp:130-139 | The FNV-1a values of nothing, of `a` and of `fo` are the published ones |
| RemoteNames.XorBits | bambu-farm-client/cpp/print_job.cpp:136 | The exclusive or, bit by bit |
| RemoteNames.HexWritten | bambu-farm-client/cpp/print_job.cpp:141-143 | Digits are written from the highest, in lower case, with zeros in front |
| RemoteNames.SanitizeKeeps | bambu-farm-client/cpp/print_job.cpp:186-217 | All of a name but the dots and blanks in front and the blanks behind is kept, with an underscore for each of the nine reserved characters; a name with nothing else becomes the default name |
| RemoteNames.NormalizeIs | bambu-farm-client/cpp/print_job.cpp:219-229 | The ending is made `.gcode.3mf` and nothing else of the sanitised name changes |
| RemoteNames.ResolvedPackage | bambu-farm-client/cpp/print_job.cpp:251-272 | A package is named after its project, or else its task, with a dash and the hash of its contents, or of its path when they cannot be read, before the ending |
| RemoteNames.ResolvedOther | bambu-farm-client/cpp/print_job.cpp:273-289 | Anything else is named after the first of FTP file, destination and task name that is given, then after the file, hashed when it is a package, and else gets the default name |
| RemoteNames.BasenameIs | bambu-farm-client/cpp/print_job.cpp:178-184 | The part of a path behind its last slash |
| RemoteNames.EndsIff | bambu-farm-client/cpp/print_job.cpp:23-29 | The ending is compared character by character, letters in either case |
| PrinterMetadata.FindJsonStringValueRange | bambu-farm-client/cpp/printer_metadata.cpp:6-30 | The escape-aware scanner finds the value range that the specification names |
| PrinterMetadata.OverrideReadsBack | bambu-farm-client/cpp/printer_metadata.cpp:72-98 | After an override, reading `dev_name` gives exactly the escaped override, for every name |
| PrinterMetadata.IdKeptIff | bambu-farm-client/cpp/printer_metadata.cpp:72-98 | The extracted `dev_id` is the same for every name that could be written exactly when an id stands before the name, or no `": "` follows the name, or the value after it is the id anyway |
| PrinterMetadata.IdCaptured | bambu-farm-client/cpp/printer_metadata.cpp:6-43 | Otherwise a name that ends in `"dev_id` makes the value after it the device id |
| PrinterMetadata.TrapUnsafe | bambu-farm-client/src/api.rs:639-655 | Such a text is announced for a printer named `x": "b`, whose name is put in unescaped: its id reads as `D`, and with another name in place as `b` |
| PrinterMetadata.TrapSprings | bambu-farm-client/cpp/printer_metadata.cpp:72-98 | For that announcement there are stored names whose second application changes the name again |
| PrinterMetadata.OverrideSettles | bambu-farm-client/cpp/printer_metadata.cpp:72-98 | Under that condition, or with one of the two ids empty, a second application changes nothing |
| PrinterMetadata.OverrideSettlesIff | bambu-farm-client/cpp/printer_metadata.cpp:72-98 | A second application changes nothing, whatever names are stored, exactly under that condition |
| PrinterMetadata.AnnouncementRenamed | bambu-farm-client/src/api.rs:638-653 | An announcement as the client formats it gets the name stored for its id, escaped, in place of the name and is otherwise unchanged; with no name stored for the id, or an empty one, it stays as it is |
| PrinterMetadata.OverrideIs | bambu-farm-client/cpp/printer_metadata.cpp:72-98 | Any text stays as it is when it shows no id, no name or an id without a stored name; otherwise the escaped stored name stands between the quotes of the old one and nothing else changes |
| LocalState.PersistLocalPrintContexts | bambu-farm-client/cpp/local_state.cpp:76-91 | The text written for a map walked in any order |
| LocalState.SplitFields | bambu-farm-client/cpp/local_state.cpp:110-120 | The loop over tabs splits a line into its fields |
| LocalState.LoadLocalPrintContexts | bambu-farm-client/cpp/local_state.cpp:107-141 | The jobs of a file text, line by line; a later line replaces an earlier one |
| LocalState.PersistLoadIff | bambu-farm-client/cpp/local_state.cpp:55-147 | Writing and loading gives back the active, named entries, in any order of the map, exactly when they stand under their own id and hold no tab or newline and a C++ int |
| LocalState.LoadNormal | bambu-farm-client/cpp/local_state.cpp:94-147 | Whatever the file holds, the loaded map is one that a file can hold |
| LocalState.LoadPersistLoad | bambu-farm-client/cpp/local_state.cpp:55-147 | Load, persist, load gives the same map as the first load, for every file text and every order |
| LocalState.PersistPrinterNameOverrides | bambu-farm-client/cpp/local_state.cpp:167-171 | The text written for the printer names |
| LocalState.LoadPrinterNameOverrides | bambu-farm-client/cpp/local_state.cpp:190-203 | The names of a file text, line by line |
| LocalState.PersistLoadNamesIff | bambu-farm-client/cpp/local_state.cpp:149-209 | The same for printer names, which may hold tabs |
| LocalState.LoadPersistLoadNames | bambu-farm-client/cpp/local_state.cpp:149-209 | Load, persist, load is load for printer names too |
| LocalState.JobWritten | bambu-farm-client/cpp/local_state.cpp:76-91 | An active job under a name is written as one line of its nine texts in the fixed order, with tabs between them; any other is not written |
| LocalState.JobLine | bambu-farm-client/cpp/local_state.cpp:107-141 | A line of nine fields adds the job they hold to what the lines before it gave, replacing an earlier one; without a device id it adds nothing |
| LocalState.OtherLine | bambu-farm-client/cpp/local_state.cpp:121-123 | A line with more or fewer than eight tabs adds nothing |
| LocalState.StoiReads | bambu-farm-client/cpp/local_state.cpp:134-138 | `stoi` reads blanks, a sign and digits, ignores what follows, and refuses numbers that are no C++ int |
| LocalState.StoiRefuses | bambu-farm-client/cpp/local_state.cpp:134-138 | A text without digits there stands for plate 0 |
| LocalState.PersistNamesSnoc | bambu-farm-client/cpp/local_state.cpp:167-171 | What is written for one id: id, tab and name on a line, or nothing when one of them is empty |
| LocalState.NameLine | bambu-farm-client/cpp/local_state.cpp:190-203 | Such a line adds the name to what the lines before it gave, replacing an earlier one; with a part missing it adds nothing |
| Stores.LocalPrintContextStore.Load | bambu-farm-client/cpp/local_print_context.cpp:6-11 | The store takes over what the file holds; a missing file empties it |
| Stores.LocalPrintContextStore.Clear | bambu-farm-client/cpp/local_print_context.cpp:13-23 | One entry goes and the rest is written; an empty id changes and writes nothing |
| Stores.LocalPrintContextStore.Update | bambu-farm-client/cpp/local_print_context.cpp:25-42 | The entry is stored under its own id and the whole map is written |
| Stores.LocalPrintContextStore.LookupSubtaskId | bambu-farm-client/cpp/local_print_context.cpp:44-54 | Finds an active job of the subtask exactly when there is one |
| Stores.LocalPrintContextStore.RewriteStatusMessage | bambu-farm-client/cpp/local_print_context.cpp:99-186 | The searches, the escaped ids and the two insertions of the source, in its order, with the ids of the active job of the device, come to the rewriting specified in `StatusRewrite` |
| StatusRewrite.InjectFileCapability | bambu-farm-client/cpp/local_print_context.cpp:101-136 | The five searches and the insertion of the capability step come to its specification |
| Stores.PrinterMetadataStore.Load | bambu-farm-client/cpp/printer_metadata.cpp:45-50 | The store takes over the names of the file |
| Stores.PrinterMetadataStore.SetNameOverride | bambu-farm-client/cpp/printer_metadata.cpp:52-70 | Stores or, with an empty name, removes an override, and writes the map |
| Stores.PrinterMetadataStore.ApplyNameOverride | bambu-farm-client/cpp/printer_metadata.cpp:72-98 | The scan for the id, the lookup, the scan for the name and the replacement by the escaped override come to the specified application |
| Stores.RestartUnnoticed | bambu-farm-client/cpp/local_print_context.cpp:6-42 | After any history of loads, updates and clears with storable jobs, a client restarted from the written file rewrites every message of every named device as before |
| Stores.RestartKeepsNames | bambu-farm-client/cpp/printer_metadata.cpp:45-98 | A client restarted from the written names renames every announcement as before |
| TunnelProtocol.SplitFileDownloadResponseFrames | bambu-farm-client/cpp/tunnel_protocol.cpp:38-84 | The four single-frame exits and the cut; equal to the specification by frame number |
| TunnelProtocol.CutFrames | bambu-farm-client/cpp/tunnel_protocol.cpp:62-83 | The loop over `offset` yields the k-th frame for every k below the rounded-up quotient |
| TunnelProtocol.FrameHeader | bambu-farm-client/cpp/tunnel_protocol.cpp:65-75 | The concatenated header is the print of the header tree |
| TunnelFrames.PayloadsRejoin | bambu-farm-client/cpp/tunnel_protocol.cpp:38-84 | For every response with a blank line, cutting each frame at its first blank line and joining the payloads gives the payload back |
| TunnelFrames.SplitAnnounces | bambu-farm-client/cpp/tunnel_protocol.cpp:62-83 | In the cut case the count is the rounded-up quotient, pieces hold 1 byte to 4 MiB, offsets are running sums, only the last result is 0, and each header is legal JSON when its strings are printable |
| TunnelFrames.TreeWellFormed | bambu-farm-client/cpp/tunnel_protocol.cpp:67-75 | A frame header is legal JSON exactly when its three strings are printable |
| JsonKeys.PrintHasKey | bambu-farm-client/cpp/tunnel_protocol.cpp:14-33 | In printed JSON, `"key":` is found exactly when some member of the tree has a key that shows the word in quotes; a string value never holds it |
| JsonKeys.FindFirstKey | bambu-farm-client/cpp/tunnel_protocol.cpp:14-33 | The first `"key":` in the text is the first member with the key, anywhere in the tree |
| TunnelProtocol.ExtractIntegerIs | bambu-farm-client/cpp/tunnel_protocol.cpp:14-23 | In any text the number read is the run of digits at the leftmost place where the regular expression matches, up to the largest 64-bit number; there is none exactly when it matches nowhere |
| TunnelProtocol.ExtractStringIs | bambu-farm-client/cpp/tunnel_protocol.cpp:25-33 | In any text the string read is the text up to the next quote at the leftmost place where the regular expression matches, and empty when it matches nowhere |
| TunnelReply.ExtractsInteger | bambu-farm-client/cpp/tunnel_protocol.cpp:14-23 | A true integer member that is the first with its key is read exactly, saturating at 64 bits |
| TunnelReply.ExtractsString | bambu-farm-client/cpp/tunnel_protocol.cpp:25-33 | A true string member that is the first with its key is read up to its first quote |
| TunnelReply.SequenceRead | bambu-farm-client/cpp/tunnel_protocol.cpp:51-55 | The reply's sequence number is read exactly when it is not negative, and not read at all when it is |
| TunnelReply.ReplySplits | bambu-farm-client/src/api.rs:1099-1111 | For every file, path and 64-bit sequence number the reply is cut exactly when the file is longer than 4 MiB and the number not negative, and the cutter works from the true number, total and digest |
| TunnelReply.PathKeptIff | bambu-farm-client/cpp/tunnel_protocol.cpp:25-33 | The path comes through exactly when it has no quote, backslash or control character |
| TunnelReply.DownloadDelivered | bambu-farm-client/src/api.rs:357-369 | From the file to the reader of the frames: the file arrives whole, every header is legal JSON with the true numbers and its own place, and its path means the requested one exactly when that is plain |
| TunnelContents.ReplyHolds | bambu-farm-client/src/api.rs:357-369 | The reply is a header, a blank line and the file, for every file, path, digest and sequence number; the header is legal JSON with result 0, the sequence number, offset 0, the true size twice, the digest twice and the path, and its strings decode to the texts that went in |
| TunnelContents.FrameHolds | bambu-farm-client/cpp/tunnel_protocol.cpp:62-83 | Each frame header spelled out in terms of the response and the frames alone: whether more follow, the sequence number, size and place of the piece, and the total, digests and path read from the response |
| TunnelContents.UncutHolds | bambu-farm-client/cpp/tunnel_protocol.cpp:38-54 | A response without a blank line, with at most 4 MiB behind it, or without a sequence number stays one frame |
| TunnelBridge.CompatTunnel.SendMessage | bambu-farm-client/cpp/tunnel_bridge.cpp:219-264 | Refusals change nothing; an accepted request appends its frames |
| TunnelBridge.CompatTunnel.Read | bambu-farm-client/cpp/tunnel_bridge.cpp:266-322 | A sample is a camera frame while video runs, otherwise the head of the queue |
| TunnelBridge.CompatTunnel.RecvMessage | bambu-farm-client/cpp/tunnel_bridge.cpp:324-350 | Hands over the head of the queue, or reports its size and keeps it |
| TunnelBridge.CompatTunnel.StartStream | bambu-farm-client/cpp/tunnel_bridge.cpp:129-168 | Starts control, or video with its failure path |
| TunnelBridge.CompatTunnel.CloseTunnel | bambu-farm-client/cpp/tunnel_bridge.cpp:352-369 | Resets every field and drops the queue |
| TunnelBridge.QueueConserved | bambu-farm-client/cpp/tunnel_bridge.cpp:247-350 | Over any run between closes, with both readers mixed in any way, every queued frame is handed over once and in order or is still queued |
| TunnelBridge.RetriesDrain | bambu-farm-client/cpp/tunnel_bridge.cpp:324-350 | A reader that asks for each frame without a buffer and again with the size it was told gets the whole queue in order and is told to wait only then |
| TunnelBridge.CloseForgets | bambu-farm-client/cpp/tunnel_bridge.cpp:352-369 | Nothing queued before a close is handed over after it |
| TunnelBridge.FileArrives | bambu-farm-client/cpp/tunnel_bridge.cpp:219-350 | A request with a member `cmdtype` of 4 on an idle tunnel, drained by any mix of reads, hands over frames whose payloads put together are the file |
| TunnelBridge.SendQueues | bambu-farm-client/cpp/tunnel_bridge.cpp:232-262 | An accepted request in JSON queues the frames of its response when some member `cmdtype` has a value that starts with a 4, and else the response itself |
| JsonKeys.PrintHasPair | bambu-farm-client/cpp/tunnel_bridge.cpp:232 | In printed JSON a quoted key with colon and the start of a value is found exactly when some member has such a key and such a value |
| TunnelBridge.SendRefused | bambu-farm-client/cpp/tunnel_bridge.cpp:219-239 | A send succeeds exactly with control type 0x3001, a request and a response, and otherwise changes nothing |
| TunnelBridge.VideoSwitches | bambu-farm-client/cpp/tunnel_bridge.cpp:129-163 | After a start that worked, samples are camera frames or the state of the camera; after one that failed they come from the queue as before |
| TunnelBridge.ClosedWaits | bambu-farm-client/cpp/tunnel_bridge.cpp:352-369 | After a close every reader is told to wait |
| ConnectionRuns.SendersMatchActive | bambu-farm-client/src/api.rs:773-919 | In every reachable state the sender map is empty or holds one sender: that of ACTIVE with no call half done, otherwise that of the connection being torn down or set up |
| ConnectionRuns.TasksSpareOthers | bambu-farm-client/src/api.rs:270-280 | No background task, however late it ends, removes another connection's sender or ACTIVE entry, nor adds any |
| ConnectionRuns.GoneStaysSilent | bambu-farm-client/src/api.rs:608-617 | Once a generation has left ACTIVE its task never passes the emit check again: its events grow by no more than a check already passed |
| ConnectionRuns.CanceledEmitsNothing | bambu-farm-client/src/api.rs:868-877 | A task that sees its cancel signal has emitted nothing and emits nothing however the run goes on |
| ConnectionRuns.OneEventEach | bambu-farm-client/src/api.rs:790-898 | Over any run each connection's task reports at most one disconnect |
| ConnectionRuns.LookupFindsActive | bambu-farm-client/src/api.rs:921-935 | A send looked up with no call half done finds the connection in ACTIVE |
| ConnectionRuns.StaysActiveIff | bambu-farm-client/src/api.rs:773-919 | Over any run the connection in ACTIVE is still there at its end exactly when no step in between began a connect call, took ACTIVE or was the clearing by its own task |
| ConnectionRuns.AcceptedSendReaches | bambu-farm-client/src/api.rs:921-935 | Such a send, accepted later, reaches the connection then in ACTIVE exactly when no step in between began a connect call, took ACTIVE or was the clearing by the task of that connection |
| ConnectionRuns.SupersededSend | bambu-farm-client/src/api.rs:773-788 | A run in which a reconnect fits between lookup and send, so that a send is accepted for a superseded connection |
| ConnectionEvents.TaskReports | bambu-farm-client/src/api.rs:608-617 | A task that leaves for its check and runs to its end has reported exactly one disconnect if its connection was in ACTIVE at the check and none otherwise; the event names its device and generation, with status 1 after a failed start and 2 else |
| ConnectionEvents.NoCheckNoReport | bambu-farm-client/src/api.rs:790-898 | A task that never gets to a check reports nothing |
| ConnectionEvents.QuietReportsNothing | bambu-farm-client/src/api.rs:858-898 | A task that gives up after too many failures clears its connection and reports nothing, however the run goes on |
| ConnectionEvents.DisconnectReports | bambu-farm-client/src/api.rs:902-919 | A disconnect call that runs to its end reports exactly one disconnect, with status 2, if the device was in ACTIVE when it began and none otherwise; then the device is neither in ACTIVE nor in the sender map |
| ConnectionEvents.ClearedFindsNothing | bambu-farm-client/src/api.rs:921-935 | After the init loop has cleared the sender map, sends find no sender until the next connect call |
| ConnectionRuns.SendAccepted | bambu-farm-client/src/api.rs:921-935 | A send is accepted exactly while there is room and a receiver, and touches no shared cell |
| ConnectionRuns.SenderGoes | bambu-farm-client/src/api.rs:258-280 | Exactly which steps take a device out of the sender map and put it in: the calls and the end of the task for just that device, and the init loop |
| ConnectionRuns.ReceiverStays | bambu-farm-client/src/api.rs:824-856 | A receiving end is there from the insertion of its sender until it is dropped itself |
| ConnectionRuns.LookupStays | bambu-farm-client/src/api.rs:921-935 | A send keeps the sender it found until it is made |
| ConnectionEvents.DroppedAcceptsNothing | bambu-farm-client/src/api.rs:824-856 | Once the receiving end of a connection is dropped, no send to that connection is accepted again |
| ConnectionEvents.CallEnds | bambu-farm-client/src/api.rs:258-268 | No connect or disconnect call gets stuck: from every state its own steps, seven at most, bring it to its end |
| ConnectionEvents.TaskMoves | bambu-farm-client/src/api.rs:790-898 | What each phase of a task lets it do next |
| CameraReader.ReadExact | bambu-farm-client/src/api.rs:397-417 | Fills the buffer in order under short reads and timeouts; ends early only at the end of the stream, a stop, a failure or the end of the schedule |
| CameraReader.CameraStreamWorker | bambu-farm-client/src/api.rs:452-482 | For every schedule the images offered are the first images of the stream, and all of them when nothing stops or breaks the reading |
| CameraReader.PacketsBack | bambu-farm-client/src/api.rs:462-477 | Whatever packets the camera sends and wherever the stream breaks off, the parser finds exactly the complete ones |
| CameraReader.OnePacket | bambu-farm-client/src/api.rs:462-477 | A packet in bytes, length lowest byte first: its payload is an image exactly when the 12 tag bytes are the right ones and it starts with FF D8 and ends with FF D9 |
| CameraReader.CameraQueue.TrySend | bambu-farm-client/src/api.rs:479-483 | A full queue drops the image |
| CameraReader.CameraQueue.TryRecv | bambu-farm-client/src/api.rs:1348-1358 | Takes the oldest image, or an empty frame |
| CameraReader.QueueDelivers | bambu-farm-client/src/api.rs:1328 | The queue never holds more than 8 images; taken and waiting images are the offered ones in order, some left out, none exactly when every offer found room |
| CameraReader.ImagesDelivered | bambu-farm-client/src/api.rs:452-483 | Worker and queue together: what the reader takes are images of the stream in order, and none is missed exactly when the worker offered them all and every offer found room |
| CameraTable.TableMatchesTunnels | bambu-farm-client/src/api.rs:1298-1346 | Between calls the keys of the stream table are exactly the non-zero ids of live tunnels, ids are distinct, started means id not zero, and every handle is in the table or told to stop |
| CameraTable.TableDuringCalls | bambu-farm-client/cpp/tunnel_bridge.cpp:129-163 | Half-way through calls the table misses only streams still being started |
| CameraTable.DestroyedLeavesNothing | bambu-farm-client/cpp/tunnel_bridge.cpp:352-375 | Destroying all tunnels leaves the table empty with every worker told to stop |
| CameraTable.StartedVideo | bambu-farm-client/cpp/tunnel_bridge.cpp:129-163 | A start that ends well leaves the tunnel with a stream id never used before, which is in the table, whatever other tunnels do meanwhile |
| CameraTable.RefusedVideo | bambu-farm-client/cpp/tunnel_bridge.cpp:129-163 | A start that is refused leaves the tunnel without a stream and none in the table |
| CameraTable.ClosedVideo | bambu-farm-client/cpp/tunnel_bridge.cpp:352-375 | A close or destroy takes the stream of a started tunnel out of the table and tells its worker to stop |
| CameraTable.CallsEnd | bambu-farm-client/cpp/tunnel_bridge.cpp:129-163 | Starting a tunnel without video, refusing the start and closing a tunnel are all possible and run to their end; starting a started one changes nothing |
| Discovery.LocalIpv4Candidates | bambu-farm-server/src/main.rs:64-109 | The list is strictly increasing and holds exactly the hosts of the scanned interfaces, for every netmask |
| Discovery.HostsOfSubnet | bambu-farm-server/src/main.rs:81-105 | With a contiguous netmask these are the addresses strictly inside the subnet, cut to a /24, without the own one; all private, in one /24, at most 254 |
| Discovery.AddedIff | bambu-farm-server/src/main.rs:81-105 | For any netmask the number of addresses an interface adds is at most 254 exactly when it is not scanned or the mask used has its first 24 bits set |
| Discovery.Hosts | bambu-farm-server/src/main.rs:98-104 | The inner loop lists exactly those addresses, once each, in increasing order |
| Discovery.WideMask | bambu-farm-server/src/main.rs:87-93 | The mask 255.0.255.255 has 24 ones and makes the interface 10.0.0.1 add 16711679 addresses |
| Discovery.FewCandidates | bambu-farm-server/src/main.rs:81-105 | When the masks used have their first 24 bits set, as all contiguous ones do, the whole list is private and has at most 254 addresses for each interface |
| Discovery.NetworkFits | bambu-farm-server/src/main.rs:95-98 | `network + 1` never overflows, for every netmask |
| Discovery.AndOnes | bambu-farm-server/src/main.rs:88-94 | Masking with a contiguous netmask rounds down to a multiple of the block size |
| Discovery.OctetRanges | bambu-farm-server/src/main.rs:79-82 | The private ranges and the loopback range on the four octets of an address |
| Discovery.BitsOf | bambu-farm-server/src/main.rs:88-94 | The bit operations, bit by bit |
| PrinterMerge.MergePrinters | bambu-farm-server/src/main.rs:438-468 | The map edits and the sort yield the merged entries, strictly ordered by id |
| PrinterMerge.MergeFields | bambu-farm-server/src/main.rs:438-468 | The ids are those of both inputs, and each field is the first non-blank one among the last persisted entry and the configured ones in order |
| PrinterMerge.FirstFilledIs | bambu-farm-server/src/main.rs:447-459 | That folded choice is the first non-blank value, or the first value when all are blank |
| PrinterMerge.MergeInSteps | bambu-farm-server/src/main.rs:438-468 | Merging onto the result of an earlier merge is merging both configurations at once |
| PrinterMerge.LessAt | bambu-farm-server/src/main.rs:466 | Two ids are ordered by the first code points that differ, or by length when one starts with the other |
| PrinterMerge.BlankTrims | bambu-farm-server/src/main.rs:447-459 | A value counts as blank exactly when trimming leaves nothing of it |
| PrinterMerge.WhiteSpace | bambu-farm-server/src/main.rs:447-459 | Trimming is about the 25 characters with the property White_Space |
| Upload.ClientChunks | bambu-farm-client/src/api.rs:985-1018 | For any schedule of short and failing reads the chunks are non-empty, at most 256 KiB, carry the same metadata, and make up just as much of the front of the file as the reads before the first failing one deliver |
| Upload.ReadSize | bambu-farm-client/src/api.rs:990-992 | One read hands over as much as it gets, up to 256 KiB |
| Upload.AssembleUpload | bambu-farm-server/src/main.rs:1174-1213 | A stream is accepted exactly when it has a chunk and all chunks agree; the bytes are those of all chunks, counted |
| Upload.Transfer | bambu-farm-server/src/main.rs:1174-1213 | End to end, for any schedule: the metadata check never rejects this client, nothing read is rejected as empty, and otherwise just the bytes read are assembled; that is the whole file exactly when it is not empty and the reads before the first failing one reach its end |
| Upload.CutShort | bambu-farm-client/src/api.rs:1002-1016 | For every file of two or more bytes, a schedule with a failing read after which the server accepts the first byte as the file |

## Left out

- gRPC, MQTT, FTPS, TLS, curl, zip and thumbnail extraction, configuration files, environment lookups, the network calls and logging.
- The exported plugin interface, the compatibility stubs, the cloud notices, `print_flow.cpp`, `callback_registry.cpp` and `session_state.cpp`: straight-line code with easy members only.
- `build_subtask_info`, the login commands and `resolve_plate_metadata_path`: one concatenation or choice each.
- `create_tunnel`, `open_tunnel`, the stream descriptions and `preview_payload`: lookups and constants; the device id taken from the URL is not modelled.
- Other tunnel commands than the file download: their replies are opaque texts to the queue.
- The camera's connection set-up and authentication packet, and the state flag the worker stores at its end.
- `CURRENT_CONNECTED_PRINTER`: kept in the state of `Connections`, but nothing is claimed of it, since a superseded task still sets it.
- The reconnect inside the init loop, which holds a lock that connect may take again: the loop is only the step that clears the sender map.
- The server's `connections` map, which is cleaned up by device id without a generation.
- Overlapping connect and disconnect calls, and generations that repeat within a nanosecond.
- Interleavings inside one store: `update` and `clear` read the map for writing after they release its lock.
- StatusTree.RewriteExtendsIpcam: speaks of messages whose first ipcam word after `print` is the key of an object inside `print`; for all others `RewriteLegalIff` says where the code inserts and what comes of it.
- TunnelBridge.CompatTunnel.RecvMessage: leaves out the `ctrl` value, a constant, and the truncation of sizes above 2^31 - 1 to `int`.
- TunnelBridge.CompatTunnel.Read: leaves out `decode_time`, the track number and the flags of a sample, which are constants.
- TunnelBridge.CompatTunnel.StartStream: is one step here; the two lock sections around the camera start are separate steps in `CameraTable`.
- TunnelBridge.CompatTunnel.CloseTunnel: leaves out the call that stops the camera stream, which is a step of `CameraTable`, and the flag that the tunnel is open, which nothing reads.
- CameraReader.CameraQueue.TrySend: leaves out the dropped receiver, which is the parameter `hangup` of `CameraStreamWorker`.
- Upload.AssembleUpload: leaves out errors of the gRPC stream and of the temporary file, which end the call with an error status.
- ReplySplits: takes the printed digest as given hexadecimal text; computing MD5 is not modelled.
- Discovery.HostsOfSubnet: speaks of contiguous netmasks, for which there is a subnet; `AddedIff`, `NetworkFits` and `LocalIpv4Candidates` speak of all.
- LocalIpv4Candidates: takes the library's sort as insertion into an ordered list, which has the same only result.
- TableMatchesTunnels: does not model the wrap-around of the 64-bit stream counter.
- Memory limits: allocation failures, and the depth of the regular expression matcher on long headers.
