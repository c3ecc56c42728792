# kleidos: a verified model

kleidos keeps secrets in one age-encrypted file, `secrets.age`, that many processes may update at
once, and hands them out: as a shell script, as NUL-delimited records, as the environment of a child
process, and through the desktop clipboard. This project models the parts of it whose correctness is
hard to see, and proves what they promise.

- **The write path** (`VaultData`, `WritePath`, `WritePathInvariant`, `WritePathSafety`, `BrokenLock`,
  `Store`). The vault directory is a transition system in which each system call of each `Update` and
  `Load` is one step, any number of calls interleave, any call may fail or be killed anywhere, and a
  power loss keeps an arbitrary part of what was not forced to disk. One inductive invariant holds in
  every reachable state; the safety theorems follow from it. `Store` is the sequential code: each of
  its system calls is one step of the same system, with arbitrary steps of the others before it.
- **The vault object and the commands** (`Format`, `Entries`, `Import`, `ChildEnv`, `WholeRun`): the
  rules for keys and values, the merge of `import`, the environment of `run`, and what all of them
  together keep true of every version that is ever committed.
- **Parsers, printers and quoting** (`Text`, `Dotenv`, `DotenvGrammar`, `NullRecords`, `Shell`,
  `Export`). `Shell` is a model of the POSIX shell's quoting (XCU sections 2.2.1, 2.2.2, 2.3 and 2.6.3)
  in which every unquoted character that could mean something else makes the result undefined.
- **The clipboard** (`Bytes`, `WaylandWire`, `WaylandConn`, `WaylandEvents`, `WaylandServe`,
  `WaylandCompositor`, `Xauth`, `X11Wire`, `X11Answers`, `X11Conn`, `X11Serve`, `X11Refused`,
  `X11Requests`, `Clipboard`, `Copy`): both wire-protocol clients down to the bytes, what a compositor
  and an X server make of what they send, the fallback between them, and the one report of `serveCopy`.

Code that updates state is a class or a method with loops, proved against a specification function;
the theorems are about the specification. A system call or a write may always fail. Strings and byte
slices are sequences of characters below 256 where widths matter.

Where the code and its comments differ, the model follows the code:

- `internal/cmd/dotenv.go:38` lists CRLF among the errors, but a line's one trailing CR is dropped
  before it is looked at, so files with CRLF line ends are read like others; only other CRs are refused.
- `internal/clipboard/clipboard.go:74-76` says that `ready` is called exactly once and before any paste
  is served. It is called at most once: exactly when the backend took the clipboard and had it
  confirmed. On Wayland a paste is served before that if and only if a send event comes before the
  confirming sync is answered (`PastesBeforeReport`); `EarlyPaste` gives such a stream from its start.
- `internal/clipboard/clipboard.go:23-24` says that a `backendError` means nothing was offered. That holds
  on Wayland, where at most the registry and sync requests were sent. On X11, once the change of owner
  was asked for, the error is a `backendError` if and only if a write failed or the packets read after
  the question do not end with its answer (`Acquire`, `Unserved`); `OwnerUnknown` gives such a stream.
- `internal/clipboard/x11.go:301-303` calls the value's ChangeProperty the largest request. The list of
  targets takes 52 bytes whatever the value, and nothing compares that with the server's limit.

The environment that `run` inherits comes from Go's `os.Environ`, which drops repeated names, so
`OverlayLookup` holds of it without a condition; `ResolvedLookup` says what would hold of any other list.

Concurrency is interleaving of system calls. Deadlines, failures and the order of a map's keys are
nondeterministic choices.

## Model

| member | source | states |
|---|---|---|
| WritePathInvariant.InvHolds | internal/vault/store.go:81-199 | every step of every process, failing, killed or at a power loss, keeps the invariant of the directory |
| WritePathSafety.AlwaysInv | internal/vault/store.go:81-199 | the invariant holds after every run from an empty directory |
| WritePathSafety.LockSound | internal/vault/store.go:100-120 | all open lock descriptors are of one inode, and at most one call is between flock and unlock |
| WritePathSafety.Linearizable | internal/vault/store.go:81-120 | the vault is the fold, over a new vault, of the mutations whose rename happened, in rename order; a call that returned nil is in it exactly once |
| WritePathSafety.ReplayChain | internal/vault/store.go:81-97 | a history whose commits each start from the previous result replays to its last vault |
| WritePathSafety.PowerLossSafe | internal/vault/store.go:143-199 | after a power loss at any moment secrets.age is absent only if no call returned nil, and else is a complete committed version that includes every such call; .bak is complete if present |
| WritePathInvariant.PowerLossStorage | internal/vault/store.go:152-199 | whatever part of the unsynced updates survives, secrets.age names a version no older than the last directory sync |
| WritePathSafety.SnapshotReads | internal/vault/store.go:40-74 | every load returns exactly the version current when it opened the file, never a torn one; one reader's loads never go backwards and never miss the vault after the first rename |
| WritePathSafety.NamedNeverWritten | internal/vault/store.go:132-187 | a file that secrets.age or .bak ever named exists and never changes again |
| WritePathSafety.OnlyRenameCommits | internal/vault/store.go:182-187 | no step but the rename changes what secrets.age names or adds a version |
| WritePathSafety.NeverMissing | internal/vault/store.go:182-187 | while the machine stays up versions only accumulate, and secrets.age is never missing once it is there |
| WritePathSafety.BakAndTemps | internal/vault/store.go:138-187 | .bak is absent, the current or the preceding version; a temp file belongs to a call at work, a killed one, or one whose removal failed |
| WritePathSafety.BakIsPrevious | internal/vault/store.go:166-187 | after its rename and until it unlocks, a call's version is current and .bak is the version before it; its deferred removal finds nothing |
| WritePathSafety.ExitAccount | internal/vault/store.go:124-199 | an exit before the rename leaves no commit; an exit after it leaves exactly one, whatever was returned, unless a power loss undid it and it had not returned nil |
| WritePathSafety.VersionsKeep | internal/vault/store.go:81-97 | a property of new vaults that every mutation keeps holds of every version |
| BrokenLock.TwoHolders | internal/vault/stress_test.go:95-130 | unlinking the lock file after unlocking admits a run with two calls in their critical sections |
| BrokenLock.WriteLost | internal/vault/stress_test.go:95-130 | it also admits a run without power loss in which a call has returned nil and its write is not in the vault |
| Store.OthersKeep | internal/vault/store.go:100-120 | whatever the other processes do, they do not touch this call's state and only add versions |
| Store.LockMayFree | internal/vault/store.go:112-115 | waiting for the lock can always end |
| Store.NotTorn | internal/vault/store.go:59-74 | under the lock the vault is read as one version, so decryption does not fail for a torn file |
| Store.CallWorks | internal/vault/store.go:158-198 | link meets neither a missing vault nor a leftover .bak, and the other calls of a save find what they need |
| Store.RenameWorks | internal/vault/store.go:185-187 | the temp file is still under its name when the rename is reached |
| Store.Store.Update | internal/vault/store.go:81-97 | the call returns with the lock closed; nil implies exactly one commit of its function, and there is a commit if and only if its rename happened, always for some recipients; nil means that no system call of it failed, and anything else that one did, that its function refused a vault that was current during the call, or that there were no recipients |
| Store.Store.WithLock | internal/vault/store.go:100-120 | every path, failing or not, ends unlocked with the result that was recorded, and a failure has one of those causes |
| Store.Store.LoadMutateSave | internal/vault/store.go:82-132 | load or create, mutate, save: every exit is still holding the lock and has no temp file to remove; a commit has recipients, and a failure one of those causes |
| Store.Store.FillAndSwap | internal/vault/store.go:143-199 | from the new temp file to the synced directory; every exit leads to the deferred removal, and it fails exactly if one of its system calls did |
| Store.Store.KeepBackup | internal/vault/store.go:166-180 | ends ready for the rename or, exactly if a system call failed, for the removal of the temp file |
| Store.Store.Swap | internal/vault/store.go:182-199 | success means that rename, directory sync and close all worked; it fails exactly if one of them did |
| Store.Store.Load | internal/vault/store.go:46-74 | returns a version that was current at some moment of the call, and not found only if nothing was committed before it; any other failure is that of a system call |
| Store.Store.LoadRecipients | internal/vault/store.go:205-227 | the file is read until it once gave recipients, which are then kept; an unreadable or empty one is an error and is not remembered |
| Format.Vault.Set | internal/vault/format.go:87-96 | stores exactly a valid key with a non-empty NUL-free value, the key's error first, and keeps the vault sound |
| Format.Vault.Delete | internal/vault/format.go:109-115 | removes that key only and reports whether it was there |
| Format.Vault.Rename | internal/vault/format.go:120-131 | both error cases in their order, else the moved map |
| Format.RenameMoves | internal/vault/format.go:117-131 | the secret keeps value and update time under its new name if and only if the names differ; all others are unchanged |
| Format.Vault.Names | internal/vault/format.go:134-141 | every key exactly once and in byte order, whatever order the map is read in |
| Format.Insert | internal/vault/format.go:134-141 | keeps a list of names sorted and adds one |
| Format.Vault.Missing | internal/vault/format.go:146-154 | the absent keys in the order given |
| Format.LessEqTotal | internal/vault/format.go:139 | the order of names is total and antisymmetric |
| Format.LessEqTransitive | internal/vault/format.go:139 | the order of names is transitive |
| Export.ShellQuote | internal/cmd/shellquote.go:23-39 | refuses NUL, else builds the quoted form |
| Export.QuoteLength | internal/cmd/shellquote.go:23-39 | the quoted form is three bytes longer for every quote, and two besides |
| Export.UnquoteQuote | internal/cmd/shellquote_test.go:52-72 | the tests' inverse gives the value back |
| Export.QuoteInjective | internal/cmd/shellquote.go:23-39 | different values have different quoted forms |
| Export.LexQuote | internal/cmd/shellquote.go:10-39 | inside a word the shell reads the quoted form as exactly the value |
| Export.LexScript | internal/cmd/export.go:40-64 | the shell reads the whole output as one export command for each name |
| Export.SubstitutedScript | internal/cmd/export.go:10-20 | the same commands after command substitution has removed the newlines at the end |
| Export.ExportMeaning | internal/cmd/export.go:40-64 | evaluating the output, directly or through command substitution, sets every name to its value and changes nothing else |
| Export.Export | internal/cmd/export.go:22-65 | output exists exactly if every name is valid and no value has a NUL, and means the whole vault; a refusal names the first offender in order, its name being looked at before its value |
| Shell.LexConcat | internal/cmd/export.go:57 | reading text in two parts is reading it at once |
| DotenvGrammar.DotenvRoundTrip | internal/cmd/dotenv.go:39-143 | whatever blank lines, comments, prefixes, blanks, quote styles and line ends distinct valid assignments are printed with, parsing gives them in order with their line numbers |
| DotenvGrammar.DotenvImage | internal/cmd/dotenv.go:113-143 | a value comes from some accepted file if and only if it has no NUL, LF or CR and not both kinds of quotes |
| DotenvGrammar.AcceptedFile | internal/cmd/dotenv.go:39-109 | every accepted file, byte for byte, is the print of the assignments read, among blank lines and comments and with some line ends |
| DotenvGrammar.AcceptedPrints | internal/cmd/dotenv.go:46-105 | the same of its lines |
| DotenvGrammar.PrintRecovered | internal/cmd/dotenv.go:46-97 | every line that is not refused is the print of one item |
| DotenvGrammar.SplitPrint | internal/cmd/dotenv.go:46-84 | a printed item is split into its key and value text again |
| DotenvGrammar.DotenvKeys | internal/cmd/dotenv.go:85-90 | the keys of an accepted file are valid and distinct |
| Dotenv.ParseDotenv | internal/cmd/dotenv.go:39-109 | the scanning loop with its map of seen keys gives the entries, or the first line's error, of the grammar |
| NullRecords.ParseNullRecords | internal/cmd/nullrec.go:26-62 | the loop gives the entries or the first record's error of the grammar |
| NullRecords.NullRoundTrip | internal/cmd/nullrec.go:26-62 | printing distinct valid keys with NUL-free values and parsing gives the list back, with or without a final NUL |
| NullRecords.NullAccepted | internal/cmd/nullrec.go:26-62 | every accepted input is the print of what was read, up to one final NUL |
| NullRecords.EmitNUL | internal/cmd/read.go:100-114 | the values in request order, each followed by NUL |
| NullRecords.EmittedSplits | internal/cmd/read.go:94-114 | splitting the output on NUL gives the values in order |
| Import.FindColliding | internal/cmd/import.go:103-108 | the keys already present, in input order |
| Import.MergeInto | internal/cmd/import.go:102-123 | new over old, old over new, or a refusal listing every collision with nothing stored |
| Import.FirstIsLast | internal/cmd/import.go:114-117 | testing presence inside the storing loop is the same merge when the keys are distinct |
| Import.DuplicatesDiffer | internal/cmd/import.go:114-117 | with a key given twice it would not be |
| Import.ParsedKeys | internal/cmd/import.go:76-83 | both parsers guarantee valid and distinct keys |
| Import.MergedImports | internal/cmd/import.go:112-121 | the merge that the flags select does for every entry and every other key what they promise |
| Import.Import | internal/cmd/import.go:51-123 | succeeds under exactly the stated conditions; then every entry is in the vault with its value, or with --skip-existing every key that was there keeps its secret and the new ones get their entries' values; other keys are unchanged and none is added; else nothing changes, the error is the first one in source order, and it is never the one of Set |
| ChildEnv.KeyList | internal/cmd/run.go:151-165 | the names if all are valid, else the error of the first that is not |
| ChildEnv.KeyListRoundTrip | internal/cmd/run.go:151-165 | a comma-separated list of valid names is split into those names |
| ChildEnv.NamedInBoth | internal/cmd/run.go:96-110 | the optional keys that are also required, in order |
| ChildEnv.LookupSome | internal/cmd/read.go:35-64 | all required keys or an error naming every missing one; then the optional keys that are present, each with its own secret |
| ChildEnv.Run | internal/cmd/run.go:84-122 | an environment results under exactly the stated conditions and is the overlay; a sound vault is never refused for its values |
| ChildEnv.ChildEnv | internal/cmd/run.go:170-217 | refused if some value is unusable, with all such keys and the first one's reason; else the overlay of the inherited environment |
| ChildEnv.ResolvedLookup | internal/cmd/run.go:167-217 | a lookup from the back finds the vault value; one from the front does exactly if the name was inherited at most once or its first entry already had that value |
| ChildEnv.OtherLookup | internal/cmd/run.go:170-217 | a name that was not asked for reads as before from either end |
| ChildEnv.OverlayLookup | internal/cmd/run.go:170-217 | with distinct inherited names both lookups agree on every name |
| ChildEnv.OverlayPositions | internal/cmd/run.go:207-215 | inherited entries keep their positions and names |
| ChildEnv.OverlayDistinct | internal/cmd/run.go:207-215 | with distinct inherited names and keys every name occurs once |
| WholeRun.RunOp | internal/cmd/rename.go:30-50 | set, delete, rename and import on the vault object go through exactly when they should, do what they promise, which is what their mutations do, and keep it sound |
| WholeRun.ResultDoes | internal/cmd/import.go:112-121 | each mutation is accepted exactly under its command's conditions and does to every key what the command promises |
| WholeRun.ResultSound | internal/vault/format.go:52-75 | every command keeps keys valid and values non-empty and NUL-free |
| WholeRun.RenameKeepsSecret | internal/cmd/rename.go:31-50 | a successful rename moves value and update time and touches nothing else |
| WholeRun.EveryVersionSound | internal/vault/format.go:52-75 | in every run of concurrent commands, with kills and power losses, every committed version is sound |
| WholeRun.FingerprintKeyFixed | internal/vault/format.go:156-168 | every version has the fingerprint key of the first, so fingerprints stay comparable |
| WholeRun.SoundConsumers | internal/cmd/export.go:49-56 | on a sound vault the refusals of export and of the child environment never fire, and NUL-delimited output splits into the values |
| WaylandWire.BuildRequest | internal/clipboard/wayland.go:97-116 | the message built in place, padded after each string, is header and encoded arguments |
| WaylandWire.FramesBack | internal/clipboard/wayland.go:97-143 | a message of whole words is framed back as itself if and only if it is under 65536 bytes |
| WaylandWire.FrontHeader | internal/clipboard/wayland.go:97-116 | a message starts with the object and a word of its size above its opcode |
| WaylandWire.StringLayout | internal/clipboard/wayland.go:103-109 | a string goes as its length with the NUL, its bytes, the NUL, and zeros up to whole words |
| WaylandWire.FrontIncomplete | internal/clipboard/wayland.go:123-144 | a proper beginning of such a message is waited on, never misread |
| WaylandWire.ArgsRoundTrip | internal/clipboard/wayland.go:97-200 | any list of words and strings decodes to itself and leaves what follows |
| WaylandWire.Args.String | internal/clipboard/wayland.go:191-200 | no slice of a body of whole words is out of range, whatever its length word says, and whole words are left |
| WaylandWire.OddBodyOverruns | internal/clipboard/wayland.go:125-127 | without the check for whole words it could be |
| WaylandConn.Conn.NextEvent | internal/clipboard/wayland.go:121-169 | the reading loop is one framing step of the stream; no descriptor is lost, and a send event always has one |
| WaylandConn.FdsConserved | internal/clipboard/wayland.go:118-169 | on any input, claimed, queued and still arriving descriptors are exactly those before, in order |
| WaylandConn.NextBounds | internal/clipboard/wayland.go:121-169 | the unframed buffer stays below 65532 + 4096 bytes and bodies are whole words |
| WaylandConn.NextDelivers | internal/clipboard/wayland.go:121-169 | one call delivers the next message of the stream, however it was cut |
| WaylandConn.FramingIndependentOfChunks | internal/clipboard/wayland.go:97-176 | repeated calls return exactly the messages in order, the i-th send event with the i-th descriptor, and leave no byte |
| WaylandEvents.GlobalsRight | internal/clipboard/wayland.go:256-284 | the seat used is the first one advertised, and each manager the last of its interface |
| WaylandEvents.PastesBeforeReport | internal/clipboard/wayland.go:308-321 | a paste is served before success is reported if and only if a send event comes before the confirming sync is answered |
| WaylandEvents.EarlyPaste | internal/clipboard/wayland.go:244-321 | a stream, from its first byte, on which that happens: the globals are found, the selection is confirmed, and a paste is answered before that, with the value for a text type and the word `secret` for the hint |
| WaylandEvents.AnswersRight | internal/clipboard/wayland.go:393-405 | every send event gets one paste, in order, on its own descriptor: the value for a text type, `secret` for the hint, nothing for any other type |
| WaylandEvents.EventCodes | internal/clipboard/wayland.go:33-52 | which event numbers end a sync, report an error, ask for a paste, end ownership or the device, and advertise |
| WaylandCompositor.OpeningTakesSelection | internal/clipboard/wayland.go:244-306 | a compositor that announced its globals, hearing the requests as bytes and with every object number checked, ends without a protocol error with its seat's selection owned by a source of exactly the hint and the five text types, through the standard manager if it announced that one |
| WaylandCompositor.ClearingClears | internal/clipboard/wayland.go:349-360 | what is said at the deadline clears that selection and asks for one more sync |
| WaylandServe.Session.HandleGlobal | internal/clipboard/wayland.go:256-269 | an event changes the globals as its advertisement says |
| WaylandServe.Session.HandleSelection | internal/clipboard/wayland.go:391-412 | one paste for a send event, with the data promised for the type it names, ownership ends exactly by cancellation, a finished device is the one error |
| WaylandServe.Session.Receive | internal/clipboard/wayland.go:121-169 | the event is the next of the stream and every descriptor stays accounted for |
| WaylandServe.Session.Roundtrip | internal/clipboard/wayland.go:210-230 | succeeds exactly if the sync was answered, every event before that being handled; else a write failed, the next read of the stream fails, or an event broke it off |
| WaylandServe.Session.Discover | internal/clipboard/wayland.go:244-285 | succeeds exactly if the registry roundtrip was answered and advertised a seat and a manager; the globals are those of its events |
| WaylandServe.Session.TakeSelection | internal/clipboard/wayland.go:287-306 | fails exactly if a write did; else both binds, the source, the hint, every text type in order, the device and the selection were requested |
| WaylandServe.Session.Prepare | internal/clipboard/wayland.go:241-320 | everything before the report: unavailable exactly if the discovery failed, final exactly if the confirmation did or the selection was taken away in it, and never without a cause in the events, the stream or a failed write |
| WaylandServe.Session.Clear | internal/clipboard/wayland.go:349-374 | unless a write fails, the selection is cleared and then the sync sent; what arrives before that is answered is closed unserved |
| WaylandServe.Session.ServeLoop | internal/clipboard/wayland.go:347-386 | every event up to the first that ends serving, or up to a read that fails, is handled; ownership ends at the first cancellation; at the deadline, and only then, the selection is cleared and what still comes is left unserved |
| WaylandServe.Session.Serve | internal/clipboard/wayland.go:232-387 | announced exactly if both roundtrips were answered, the globals were there and the selection was kept, and else for a cause; the events are those of the stream in order, each send event up to the end of serving has one paste with the data promised for the type it names, the selection is cleared at the deadline unless a write fails, and every descriptor ends in one paste or one close |
| Xauth.XauthCookie | internal/clipboard/x11.go:88-126 | the data of the first magic cookie, before any torn record, that is for any host or a local one of this host, and for any display or this one |
| Xauth.RecordsRoundTrip | internal/clipboard/x11.go:97-120 | printed records are read back, also before a torn record |
| Xauth.FieldBytes | internal/clipboard/x11.go:97-107 | a field goes as its length, most significant byte first, and its bytes |
| Bytes.Pad4 | internal/clipboard/wayland.go:414-419 | the fewest zeros that complete a multiple of four |
| Bytes.ByteOrder | internal/clipboard/wayland.go:102-113 | which byte of a number comes first |
| Clipboard.PayloadPromised | internal/clipboard/clipboard.go:56-68 | the value under each text type, `secret` under the hint, nothing under any other name |
| X11Wire.ValueFits | internal/clipboard/x11.go:301-306 | a value passes the check if and only if its ChangeProperty, padded, is within the server's limit |
| X11Wire.LengthField | internal/clipboard/x11.go:212-219 | within the limit the 16-bit length field holds the true number of words |
| X11Wire.SetupRoundTrip | internal/clipboard/x11.go:196-209 | root, limit and the odd one of the first two window ids are read from the right places, whatever vendor name and formats the block has |
| X11Wire.PacketFramed | internal/clipboard/x11.go:225-238 | packets come off the stream whole, replies and generic events with the extra words they announce |
| X11Wire.AskRoundTrip | internal/clipboard/x11.go:430-438 | every field of a SelectionRequest is read from its place, None standing for the target |
| X11Wire.NotifyFields | internal/clipboard/x11.go:448-458 | the notification carries requestor, time, selection, target and property where the protocol has them |
| X11Wire.ChangePropertyFields | internal/clipboard/x11.go:274-284 | mode, window, property, type, format, number of items and data are where the protocol has them |
| X11Wire.SetOwnerFields | internal/clipboard/x11.go:286-291 | owner, selection and time are where the protocol has them |
| X11Wire.HelloFields | internal/clipboard/x11.go:166-176 | the opening says the byte order, version 11.0, and the authorization with its lengths, each part padded |
| X11Conn.Conn.Request | internal/clipboard/x11.go:212-222 | a request that was written has the number the server counts, modulo 65536 |
| X11Conn.Conn.Packet | internal/clipboard/x11.go:225-238 | takes exactly the next packet of the stream, or there is no whole one left |
| X11Conn.Conn.Reply | internal/clipboard/x11.go:241-257 | returns exactly the first answer to that number if it is a reply; else that is an error or the stream ended; the events before it are set aside in order, none lost |
| X11Conn.Conn.InternAtom | internal/clipboard/x11.go:259-272 | the atom is the one in the reply to the request just made |
| X11Conn.Conn.ReadScreen | internal/clipboard/x11.go:196-209 | the block is refused if it is short or lists no screen, else read at the offsets that SetupRoundTrip shows to be right |
| X11Conn.Conn.Setup | internal/clipboard/x11.go:166-210 | succeeds exactly if the opening was written and the server accepts with a block that lists a screen, and takes the fields from it |
| X11Answers.ConvertsUnique | internal/clipboard/x11.go:477-490 | with distinct atoms the conversion does not depend on the order in which the map is searched |
| X11Answers.DeliversWrite | internal/clipboard/x11.go:468-490 | what is written for a target goes to the requestor's window and property as the promised data of a name of that atom, TEXT as UTF8_STRING, or as the seven targets |
| X11Answers.GrantedDeserves | internal/clipboard/x11.go:440-444 | a conversion is granted only for the clipboard, not from before it was owned, and for an offered target; with distinct atoms exactly then |
| X11Answers.OneRightNotify | internal/clipboard/x11.go:430-490 | exactly one notification for a request, sent last, for what was asked; its property is nonzero only if the request may be served, and then that property of the requestor was replaced just before by the promised data, under its type; with distinct atoms a request that may be served is |
| X11Answers.TranscriptUnique | internal/clipboard/x11.go:398-490 | with distinct atoms everything sent while serving is determined by the packets handled |
| X11Answers.EveryAskAnswered | internal/clipboard/x11.go:398-464 | over a whole run the notifications are those of the requests, one each, in order |
| X11Answers.EveryNotifyRight | internal/clipboard/x11.go:398-490 | over a whole run each notification answers the request of its rank and is right in that sense: what stands just before a nonzero one writes the value, the hint's word or the list of targets to the requestor's window and property |
| X11Answers.TargetsFit | internal/clipboard/x11.go:469-476 | the list of targets takes 52 bytes |
| X11Serve.InternAll | internal/clipboard/x11.go:308-319 | exactly the needed atoms, each the one in the reply to the request for its name, STRING without asking; else a write failed, the stream ended, or the last request was answered with an error |
| X11Serve.ProbeTime | internal/clipboard/x11.go:345-361 | the time is the first nonzero one told about the own window, no error came before, and every event looked at was the next in order |
| X11Serve.TakeOwnership | internal/clipboard/x11.go:363-376 | succeeds exactly if the reply names the own window, is final exactly if it names another, and unavailable exactly if a write or the answer failed |
| X11Serve.Locate | internal/clipboard/x11.go:308-361 | atoms, window and time, with nobody asked for the owner yet, or the cause why not |
| X11Serve.Acquire | internal/clipboard/x11.go:308-376 | success means that the server named every atom, told the time and confirmed the owner; an error has its cause in the packets read; once the owner was asked for it is unavailable exactly if a write failed or the question was not answered |
| X11Refused.OwnerUnknown | internal/clipboard/x11.go:363-373 | a stream on which the owner was asked for and the error is unavailable all the same |
| X11Requests.OpeningHeard | internal/clipboard/x11.go:308-376 | a server, reading every field from its place, is asked for the seven atoms, for an input-only window that hears of its own property changes, for one empty append, for the clipboard at the time told, and who has it |
| X11Requests.FarewellHeard | internal/clipboard/x11.go:404-408 | at the deadline, and only then, the clipboard is left without an owner |
| X11Requests.AskHeard | internal/clipboard/x11.go:430-438 | event 30 is a request and never a loss |
| X11Requests.ClearHeard | internal/clipboard/x11.go:426-428 | event 29 is a loss exactly if it is about the clipboard |
| X11Requests.ChangeHeard | internal/clipboard/x11.go:353-357 | event 28 tells the time exactly if it is about the own window |
| X11Requests.ReplyHeard | internal/clipboard/x11.go:241-272 | a reply or an error answers the request whose number it carries, a reply with its word |
| X11Requests.SetupHeard | internal/clipboard/x11.go:178-209 | the setup is accepted exactly if the head says so and its block parses |
| X11Serve.Answer | internal/clipboard/x11.go:468-492 | writes the conversion the target calls for, where and as the requestor expects it, or nothing |
| X11Serve.Handle | internal/clipboard/x11.go:423-464 | each packet gets exactly its answers; a failed property write makes the notification a refusal |
| X11Serve.ServeEvents | internal/clipboard/x11.go:398-419 | the events set aside, then those read later, are handled once each, in order, up to the first that ends ownership |
| X11Serve.Serve | internal/clipboard/x11.go:293-420 | announced exactly once, when the reply confirmed ownership, and never by a call that lets another backend try; atoms, time and packets are the server's; all that was read went to the probe or, once and in order, to the handler; all that was sent is the opening, the answers and the farewell; a call that is not announced has the error and the cause that the packets give |
| X11Serve.AllAnswered | internal/clipboard/x11.go:398-490 | if all writes worked, every request handled got its one notification, in order, each telling truly whether the conversion was written just before it, to the requestor's window and property and with the promised data |
| X11Serve.WritesFit | internal/clipboard/x11.go:301-306 | no property write exceeds the server's limit if that is at least 52 bytes |
| Copy.Serve | internal/clipboard/clipboard.go:77-95 | Wayland is tried unless the value is empty, X11 exactly if Wayland is unavailable, and each ends as its own contract says; the result is that of the last one tried, no usable clipboard exactly if both are unavailable; success is announced exactly if one of them took the clipboard |
| Copy.NeverOk | internal/cmd/copy.go:167-196 | no error message reads like the success message |
| Copy.ServeCopy | internal/cmd/copy.go:168-196 | the status is written once and closed on every path, `ok` if and only if a backend took the clipboard, else the error returned; the backends are tried and the result chosen as Serve does; nil is never returned without a report |

## Left out

- age encryption, the recipients' and identities' contents, HMAC fingerprints and random keys: a ciphertext is torn or holds exactly one vault.
- JSON: `Encode` and `Decode` are inverse by assumption; `encoding/json` replaces invalid UTF-8, which the model's strings do not show.
- A `Decode` that refuses a complete vault of another version or without a fingerprint key: in the model that is one of the failures a read may have.
- Failure of LOCK_UN and of closing the lock file: both results are ignored by the code, and closing releases the lock.
- The mutex around the cached recipients, and goroutines inside one process: one `Store` runs one call at a time here.
- Blocking in flock: the waiting call's next step is enabled when the lock is free.
- Readers racing with the creation of the directory itself, permissions and file modes.
- Secrets are values where the source has pointers; no command changes a secret in place.
- Terminal prompts, `list`, `has`, `get` and the human-readable `emit`, flag parsing, exit codes, opening the store, exec and spawning the background server: easy, or outside the program.
- The texts of error messages, except that none is the success message; a failed write's own text begins with `write `, as Go's net package words it. Location strings are numbers.
- `os.Environ` itself: that it gives each name once is Go's doing.
- Lines of 1 MiB and more, which the scanner refuses, and read errors of the import input.
- Partial output of a refused export: the buffered writer may already have written some.
- The shell model knows only `export` with one assignment; an alias or function of that name is outside it.
- Finding the display sockets and the Xauthority file; dialling is a yes or no.
- Truncated control messages and descriptors above the 28 that one read takes: a read in the model delivers all its descriptors.
- The goroutine that reads events and the loop that handles them are one sequence of steps; the reader may hold one more event when it is stopped.
- The bytes written to a paste's pipe are the payload as a whole; the writing goroutine and its failure are not followed.
- A claim that giving up the selection at time 0 cannot displace a newer X11 owner: the server replaces that time by its own.
- Wrap-around of X11 timestamps: the comparison is the plain one of the code.
- Import.FirstIsLast: stated for distinct keys only, which ParsedKeys shows is all the code can meet.
- X11Answers.OneRightNotify: assumes that the server's atoms are not None and, as the code's contract does, speaks of runs whose writes worked; Handle states what a failed write leads to.
- The compositor and the X server are models of the parts of those protocols used here: a compositor that follows the data-control protocol, a server that lays fields out as the core protocol does.
- X11Answers.GrantedDeserves: the second half needs distinct atoms, which a server always gives.
- X11Answers.ConvertsUnique: two names with one atom would make the result depend on the map's order; a server never does that.
