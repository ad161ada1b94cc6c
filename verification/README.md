# Verified core of the game-server common library

A Dafny model of nine components of the server: the DEFLATE/zlib decoder, streaming SHA-1, the path parser and
printer, the open-addressing hash list, the worker mailbox system with its block allocator, the connection slot
table, the additive random generator, the byte stream and the string tokenizer. `dafny verify dfyconfig.toml` checks
everything.

Code that works in place is modelled in place: classes with the source's fields, methods with the source's loops and
branches. Each such method is tied to a function or a predicate on values, and the promises of the component are
lemmas about those.

| files | component | main results |
|---|---|---|
| `Bits`, `Huffman`, `HuffmanTheory`, `BitReader`, `Deflate`, `InflateTables`, `Inflate` | DEFLATE decoder (RFC 1951) | `Deflate.dfy` defines a stream of blocks, its bits, and its LZ77 expansion. The decoder's methods take that stream as a ghost argument and are proved to undo the encoding directly, bit by bit; there is no second decoder in between. Canonical codes are proved prefix-free, and complete exactly under Kraft equality |
| `Adler32`, `Zlib` | checksum and container (RFC 1950) | no 32-bit overflow in the deferred-modulo loop; round trip of the container |
| `Sha1Spec`, `Sha1Engine` | SHA-1 (FIPS 180-1) | any chunking gives the one-shot digest |
| `PathSpec`, `PathText`, `PathVms`, `Path` | paths | confluence of normalisation; what each edit means for the text; printing and parsing undo each other for exactly the canonical paths in Unix, Windows and VMS syntax |
| `HashTable`, `HashHistory`, `HashList` | hash list | probe chains survive every history; exactly when a stored entry is found and when a new one is refused; insert-only histories are a finite map |
| `MailboxSpec`, `MailboxHeap`, `MailboxRuns`, `MailboxProgress`, `MemBlockPool`, `GlobalObject`, `MsgHandler` | mailboxes | a state machine over all workers and senders with one step for each locked region: one owner for every block, exactly one fate for every message, arrival order kept, conservation, what becomes of each message and why, exactly when a forward loses its message, and a measure that brings every calm run to rest. The allocator, the queues and `ProcessMsg` carry the machine's state as ghost state and are proved to be runs of it |
| `SlotTable` | connection slots | soundness over all operation sequences, id uniqueness, routing, exactly when a second remove ends the successor |
| `Random` | random generator | Schrage's method is exact for every Int32; the circular buffer is a window of the recurrence |
| `Stream` | serialiser | round trip of whole lists, with its exact condition |
| `Tokenizer` | tokenizer | the tokens rebuild the input; exactly when trimming is trimming |

`Arithmetic.dfy` and `Common.dfy` hold what the others share.

## Where the code is not what it seems

- `HashList::remove` and `take` stay on a tombstone until the loop runs out, and `insert` fills the first one it meets.
  `HashHistory.CallsAfterRun` says for every history which stored keys are found and which are stored a second time;
  `HashHistory.TombstoneHidesEntry` is a history that does both. Growth drops the second copies again
  (`HashHistory.GrowthKeepsLowest`). `take` with removal decrements the counter twice: after any history it is off by
  the number of such takes since the table last grew (`HashHistory.LagAfterRun`), and the table can fill up and refuse
  a new key (`HashHistory.RefusedAfterIff`, with a history in `HashHistory.FullTableRefuses`).
- `TcpConduit::forceClose` can queue a second remove for its connection. Once the first one is applied and the slot is
  given away again, the second one ends the successor; `SlotTable.SecondRemoveIff` says exactly when, and
  `SlotTable.SecondRemoveHitsSuccessor` gives a queue.
- `TcpSlaveServer::_remove` does not look at the slave part of an id, so another slave's id would end a bystander
  (`SlotTable.RemoveSparesOthersIff`). The callers never pass one: `TcpMasterServer::remove` routes by
  `id % WORKERS`, which makes removal exact over all slaves (`SlotTable.RoutedRemove`), and a conduit passes its own id.
- `TcpSlaveServer::destroy` leaves the set of empty slots as it is. If there were any, the next accept never leaves its
  loop (`SlotTable.SlaveServer.Destroy`, `SlotTable.ReuseTurn`; `SlotTable.SpinningAccept` is such a table).
- `Path::parseVMS` pushes directories itself: an absolute path can come out with ".." in it (`PathVms.VmsNormalIff`,
  for instance `PathVms.ClimbingAboveRoot`).
- `Path::buildWindows` prints a relative path with a device as an absolute one (`PathText.DeviceReadsAbsolute`), and
  `Path::parseUnix` makes such paths (`PathText.RelativeDevice`). A first component that looks like a drive does not
  come back either (`PathText.DriveIsLost`); `PathText.WindowsRoundTripIff` has the exact condition for all paths.
- A string of 65536 bytes or more is written whole behind a truncated length, and a vector of bytes without any
  (`Stream.AllBackIff`).
- TOK_TRIM swallows white-space separators (`Tokenizer.TrimmedIff`).
- `Random::goodRand` returns 0 for the non-zero multiples of 2^31 - 1, and only for them (`Random.GoodRandExact`).
- A forwarded message can be lost: `PushMsg` returns nothing, so `ProcessMsg` cannot tell that it failed, and frees the
  original all the same. That happens exactly for a thread number that is no worker, or when malloc fails while the
  pool for the size is empty or the size is above all pools (`MailboxRuns.CanBeLostIff`; `MailboxRuns.LosingRun` is a
  run that loses one).

## Model

| member | source | states |
|---|---|---|
| `Inflate.Uncompress` | C++Save/Tmp/ProjectA/Core/Common/TInf.cpp:375-425 | Decoder inverts encoder: for every stream of stored, fixed and dynamic blocks, run on its RFC 1951 bits (with anything behind them) the result is exactly the LZ77 expansion, `destLen` its length, OK; a stream that breaks off at a wrong stored-length complement or at block type 3 gives DATA_ERROR and the output of the blocks before it |
| `Inflate.Inflater.InflateBlockData` | C++Save/Tmp/ProjectA/Core/Common/TInf.cpp:262-306 | The symbol loop consumes exactly the code bits of the tokens and the end-of-block symbol and appends their expansion |
| `Inflate.Inflater.InflateMatch` | C++Save/Tmp/ProjectA/Core/Common/TInf.cpp:282-304 | A match consumes its extra bits, distance code and distance extra bits and appends the copy they mean |
| `Inflate.Inflater.CopyBack` | C++Save/Tmp/ProjectA/Core/Common/TInf.cpp:297-303 | The byte-by-byte copy inside the output buffer is the overlapping LZ77 copy |
| `Inflate.Inflater.InflateUncompressed` | C++Save/Tmp/ProjectA/Core/Common/TInf.cpp:309-336 | From any bit position: skips to the byte boundary, checks the complement, copies the data; rejects a wrong complement without output |
| `Inflate.Inflater.ReadLengths` | C++Save/Tmp/ProjectA/Core/Common/TInf.cpp:213-250 | The run-length loop over symbols 0-18 fills in exactly the lengths the code-length codes stand for, copies of the previous length and zero runs included |
| `Inflate.Inflater.DecodeTrees` | C++Save/Tmp/ProjectA/Core/Common/TInf.cpp:184-255 | A dynamic header in bits leaves the two trees built for its literal and distance lengths, all its bits consumed |
| `Deflate.EveryCodeHasHeader` | C++Save/Tmp/ProjectA/Core/Common/TInf.cpp:184-255 | Any two length vectors of the format's sizes within Kraft's inequality have a dynamic header |
| `Inflate.Inflater.InflateFixed` | C++Save/Tmp/ProjectA/Core/Common/TInf.cpp:339-343 | A fixed block is decoded with the fixed trees |
| `Inflate.NextSymbol` | C++Save/Tmp/ProjectA/Core/Common/TInf.cpp:269-287 | The encoding of any token list begins with the code of the symbol the loop must see next: 256 for the end, the byte, or 257 plus the length code |
| `BitReader.Reader.GetBit` | C++Save/Tmp/ProjectA/Core/Common/TInf.cpp:126-143 | The next bit of the byte string, least significant first, refilling the tag at byte boundaries |
| `BitReader.Reader.ReadBits` | C++Save/Tmp/ProjectA/Core/Common/TInf.cpp:146-161 | Reading back a number written least significant bit first gives it plus the base |
| `BitReader.Reader.DecodeSymbol` | C++Save/Tmp/ProjectA/Core/Common/TInf.cpp:164-181 | On any length vector within Kraft's inequality, a stream that starts with a symbol's canonical code gives that symbol and consumes just those bits |
| `BitReader.SymbolStep` | C++Save/Tmp/ProjectA/Core/Common/TInf.cpp:170-178 | Each turn of the decoding loop: the next code bit moves the first-code difference so that it turns negative exactly at the code's length, at the symbol's rank |
| `Huffman.Tree.Build` | C++Save/Tmp/ProjectA/Core/Common/TInf.cpp:94-119 | The counting sort leaves the length counts and every coded symbol at its canonical place |
| `Huffman.PlaceInjective` | C++Save/Tmp/ProjectA/Core/Common/TInf.cpp:115-118 | No two symbols share a place in the sorted symbol table |
| `Huffman.KraftSumIsEndCode` | C++Save/Tmp/ProjectA/Core/Common/TInf.cpp:106-112 | The Kraft sum scaled by 2^15 is the first free code after the last canonical code |
| `Huffman.KraftFits` | C++Save/Tmp/ProjectA/Core/Common/TInf.cpp:106-112 | Kraft's inequality keeps all codes of every length within their number of bits |
| `HuffmanTheory.PrefixFree` | C++Save/Tmp/ProjectA/Core/Common/TInf.cpp:164-181 | Canonical codes within Kraft's inequality: at most one symbol's code starts any bit string |
| `HuffmanTheory.CompleteIffKraftEquality` | C++Save/Tmp/ProjectA/Core/Common/TInf.cpp:164-181 | Some symbol's code starts every 15-bit stream, so that decoding stops within 15 bits, exactly under Kraft equality |
| `HuffmanTheory.OnesUndecodable` | C++Save/Tmp/ProjectA/Core/Common/TInf.cpp:164-181 | Below equality the all-ones stream starts with no code |
| `InflateTables.BuildBitsBase` | C++Save/Tmp/ProjectA/Core/Common/TInf.cpp:52-66 | The computed extra-bits and base tables, entry by entry |
| `InflateTables.LengthTable` | C++Save/Tmp/ProjectA/Core/Common/TInf.cpp:360-371 | The computed length table is that of section 3.2.5 of RFC 1951 for codes 257 to 284 |
| `InflateTables.LastLengthCode` | C++Save/Tmp/ProjectA/Core/Common/TInf.cpp:366-371 | For code 285 the computed entry is wrong, hence the patch after the call |
| `InflateTables.DistTable` | C++Save/Tmp/ProjectA/Core/Common/TInf.cpp:360-371 | The computed distance table is that of section 3.2.5 of RFC 1951 |
| `InflateTables.FixedKraft` | C++Save/Tmp/ProjectA/Core/Common/TInf.cpp:69-91 | The fixed codes fill their code space exactly |
| `InflateTables.FixedPlace` | C++Save/Tmp/ProjectA/Core/Common/TInf.cpp:80-83 | Where each literal/length symbol belongs in the fixed tree's symbol table |
| `InflateTables.BuildFixedLiterals` | C++Save/Tmp/ProjectA/Core/Common/TInf.cpp:73-83 | The hand-filled fixed literal tree is the one the counting sort would build |
| `InflateTables.BuildFixedDistances` | C++Save/Tmp/ProjectA/Core/Common/TInf.cpp:85-90 | The same for the fixed distance tree |
| `Zlib.CopyMatchRepeats` | C++Save/Tmp/ProjectA/Core/Common/TInf.cpp:297-303 | An overlapping copy repeats the last `dist` bytes periodically |
| `Zlib.EveryMatchHasToken` | C++Save/Tmp/ProjectA/Core/Common/TInf.cpp:52-66 | Every length 3 to 258 and distance 1 to 32768 can be said by the tables and the fixed codes |
| `Adler32.ComputeAdler` | C++Save/Tmp/ProjectA/Core/Common/TInf.cpp:430-464 | The deferred-modulo loop equals the byte-by-byte definition modulo 65521 of section 2.2 of RFC 1950, for every input |
| `Adler32.NMaxIsTight` | C++Save/Tmp/ProjectA/Core/Common/TInf.cpp:427-455 | The largest sum of a run of 5552 bytes is below 2^32, that of 5553 bytes is not |
| `Adler32.BoundAttained` | C++Save/Tmp/ProjectA/Core/Common/TInf.cpp:440-458 | That largest sum is reached: by n bytes of 255 behind sums of 65520 |
| `Adler32.LongerRunsOverflow` | C++Save/Tmp/ProjectA/Core/Common/TInf.cpp:427-455 | With runs of 5553 bytes there is an input that overflows: a first run that leaves both sums at 65520, then 5553 bytes of 255 |
| `Adler32.TracksFits` | C++Save/Tmp/ProjectA/Core/Common/TInf.cpp:440-458 | Within a run neither sum overflows 32 bits |
| `Zlib.ZlibUncompress` | C++Save/Tmp/ProjectA/Core/Common/TInf.cpp:467-513 | OK exactly when the header checks pass, inflating succeeds and the trailing big-endian word is the Adler-32 of the output |
| `Zlib.HeaderFields` | C++Save/Tmp/ProjectA/Core/Common/TInf.cpp:476-495 | The header is accepted exactly when it is put together of window size 0 to 7, method 8, any level, no dictionary and the check bits of section 2.2 of RFC 1950 |
| `Zlib.ZlibRoundTrip` | C++Save/Tmp/ProjectA/Core/Common/TInf.cpp:467-513 | The container around any encoded stream passes every check the decoder makes |
| `Zlib.DecodeEncoded` | C++Save/Tmp/ProjectA/Core/Common/TInf.cpp:467-513 | Decoding the RFC 1950 container of any valid stream gives back its expansion |
| `Sha1Engine.DigestOfChunks` | C++Save/Tmp/ProjectA/Core/Common/SHA1Engine.cpp:41-132 | Whatever the chunking, updates followed by a digest give the FIPS 180-1 SHA-1 of all the bytes |
| `Sha1Engine.Engine.Update` | C++Save/Tmp/ProjectA/Core/Common/SHA1Engine.cpp:41-64 | Takes in the bytes: chain value, partial block and split bit count stand for the longer message |
| `Sha1Engine.Engine.Digest` | C++Save/Tmp/ProjectA/Core/Common/SHA1Engine.cpp:87-132 | The SHA-1 of the message so far, after which the engine stands for the empty message |
| `Sha1Engine.Engine.Pad` | C++Save/Tmp/ProjectA/Core/Common/SHA1Engine.cpp:89-122 | Both padding cases, one block or two, end in the fold over the padded message of FIPS 180-1 |
| `Sha1Engine.Engine.Transform` | C++Save/Tmp/ProjectA/Core/Common/SHA1Engine.cpp:202-264 | The expanded and unrolled rounds on the buffer are one compression of FIPS 180-1 |
| `Sha1Engine.Engine.ByteReverse` | C++Save/Tmp/ProjectA/Core/Common/SHA1Engine.cpp:28-38 | The words in place are the words with their bytes reversed, and no others change |
| `Sha1Engine.ReversedPrefix` | C++Save/Tmp/ProjectA/Core/Common/SHA1Engine.cpp:58-60 | Reversing the buffered bytes in place gives the big-endian words of the message |
| `Sha1Engine.CountsAdd` | C++Save/Tmp/ProjectA/Core/Common/SHA1Engine.cpp:46-50 | The carry logic keeps the 64-bit count in two 32-bit words, modulo 2^64, for any count below 2^32 |
| `Sha1Engine.CountsWords` | C++Save/Tmp/ProjectA/Core/Common/SHA1Engine.cpp:90-94 | The two words are the bit length's halves, and the low one tells the fill of the block |
| `Sha1Engine.PaddedSplit` | C++Save/Tmp/ProjectA/Core/Common/SHA1Engine.cpp:98-120 | 0x80, zeros and the two count words are the padding of FIPS 180-1 for that length |
| `Sha1Engine.Engine.Reset` | C++Save/Tmp/ProjectA/Core/Common/SHA1Engine.cpp:73-84 | The state of the empty message |
| `Sha1Spec.FoldConcat` | C++Save/Tmp/ProjectA/Core/Common/SHA1Engine.cpp:52-63 | Compressing block by block is compressing whole-block prefixes first |
| `PathSpec.PushNormalised` | C++Save/Tmp/ProjectA/Core/Common/Path.cpp:446-470 | Confluence: normalising a relative run of components first makes no difference to where it leads from any directory |
| `PathSpec.PushAllKeepsNormal` | C++Save/Tmp/ProjectA/Core/Common/Path.cpp:446-470 | No empty or "." directory, ".." only in front, none at all when absolute: kept by any pushes |
| `PathSpec.EditsKeepNormal` | C++Save/Tmp/ProjectA/Core/Common/Path.cpp:277-407 | makeDirectory, makeParent, makeAbsolute and resolve keep the normal form |
| `PathSpec.ParentIsDotDot` | C++Save/Tmp/ProjectA/Core/Common/Path.cpp:358-381 | The parent of a directory is that directory joined with "..", all else unchanged |
| `PathSpec.ParentOfDirectory` | C++Save/Tmp/ProjectA/Core/Common/Path.cpp:277-381 | A plain name becomes the last directory, and the parent of that is the path without its name |
| `PathSpec.ParentOfFile` | C++Save/Tmp/ProjectA/Core/Common/Path.cpp:358-381 | The parent of a path with a name differs from it in name and version alone |
| `PathSpec.FileAndDirectory` | C++Save/Tmp/ProjectA/Core/Common/Path.cpp:277-301 | makeFile and makeDirectory undo each other |
| `PathSpec.ResolveParts` | C++Save/Tmp/ProjectA/Core/Common/Path.cpp:394-407 | Joining with an absolute path gives that path; with a relative one node, device, version and flag stay, and the name is the other's |
| `PathSpec.ResolveAssociates` | C++Save/Tmp/ProjectA/Core/Common/Path.cpp:394-407 | Joining is associative |
| `PathSpec.MakeAbsoluteIsResolve` | C++Save/Tmp/ProjectA/Core/Common/Path.cpp:310-326 | An absolute path stays as it is; making a relative one absolute, against any base, is joining the base's directory with it |
| `Path.Path.PushDirectory` | C++Save/Tmp/ProjectA/Core/Common/Path.cpp:446-470 | The stack update of pushDirectory outside VMS |
| `Path.Path.DoMakeDirectory` | C++Save/Tmp/ProjectA/Core/Common/Path.cpp:277-287 | The value MakeDirectory |
| `Path.Path.DoMakeParent` | C++Save/Tmp/ProjectA/Core/Common/Path.cpp:358-381 | The value MakeParent |
| `Path.Path.DoMakeFile` | C++Save/Tmp/ProjectA/Core/Common/Path.cpp:290-301 | The value MakeFile |
| `Path.Path.DoMakeAbsolute` | C++Save/Tmp/ProjectA/Core/Common/Path.cpp:310-326 | The loop over the directories leaves the value MakeAbsolute |
| `Path.Path.DoResolve` | C++Save/Tmp/ProjectA/Core/Common/Path.cpp:394-407 | The loop over the other path's directories leaves the value Resolve |
| `Path.Path.DoParseUnix` | C++Save/Tmp/ProjectA/Core/Common/Path.cpp:603-647 | The character loop leaves the path ParseUnix, devices and home included |
| `Path.Path.DoBuildUnix` | C++Save/Tmp/ProjectA/Core/Common/Path.cpp:871-891 | The string BuildUnix |
| `Path.Path.DoParseWindows` | C++Save/Tmp/ProjectA/Core/Common/Path.cpp:650-693 | The character loop leaves the path ParseWindows or fails on the same texts |
| `Path.Path.DoBuildWindows` | C++Save/Tmp/ProjectA/Core/Common/Path.cpp:894-919 | The string BuildWindows |
| `Path.Path.DoParseVms` | C++Save/Tmp/ProjectA/Core/Common/Path.cpp:696-813 | The nested loops leave the path ParseVms or fail on the same texts |
| `Path.Path.DoBuildVms` | C++Save/Tmp/ProjectA/Core/Common/Path.cpp:922-958 | The string BuildVms |
| `PathText.UnixRoundTripIff` | C++Save/Tmp/ProjectA/Core/Common/Path.cpp:603-647 | Printing and parsing in Unix style undo each other for exactly the canonical paths |
| `PathText.ParseUnixIsNormal` | C++Save/Tmp/ProjectA/Core/Common/Path.cpp:603-647 | Every parsed Unix path is in normal form with slash-free names |
| `PathText.SlashMakesDirectoryIff` | C++Save/Tmp/ProjectA/Core/Common/Path.cpp:277-287 | For a canonical Unix path, appending a slash to the text is making a directory, exactly unless the text is empty or its only component reads as a device |
| `PathText.ParentText` | C++Save/Tmp/ProjectA/Core/Common/Path.cpp:358-381 | The text of a path with a name is the text of its parent with the name behind it, in Unix and in Windows style |
| `PathText.HomeText` | C++Save/Tmp/ProjectA/Core/Common/Path.cpp:616-626 | "~" and "~/" stand for the home directory |
| `PathText.UnixConcatIsResolve` | C++Save/Tmp/ProjectA/Core/Common/Path.cpp:603-647 | Parsing A+B is joining the parsed A and B, for A ending in a slash and relative B without a leading home, when no directory of B that ends in ':' comes where B alone, or A and B together, have no directory yet or any more |
| `PathText.UnixConcatDeviceIff` | C++Save/Tmp/ProjectA/Core/Common/Path.cpp:603-647 | When the last directory of B is the first such one, the law still holds exactly if it is read as a device both times and names the device A has |
| `PathText.WindowsRoundTripIff` | C++Save/Tmp/ProjectA/Core/Common/Path.cpp:650-693 | Printing and parsing in Windows style undo each other for exactly the canonical paths, with node and drive-letter cases |
| `PathText.ParseWindowsIsNormal` | C++Save/Tmp/ProjectA/Core/Common/Path.cpp:650-693 | Every accepted Windows text gives a path in normal form |
| `PathText.SlashKind` | C++Save/Tmp/ProjectA/Core/Common/Path.cpp:650-693 | It makes no difference which of the two slashes a Windows text has, place by place |
| `PathText.WindowsAccepts` | C++Save/Tmp/ProjectA/Core/Common/Path.cpp:650-693 | A Windows text is refused exactly when a ':' stands where a drive's would without a letter before it, without a slash behind it, or behind a slash; an accepted one is absolute exactly if it begins with a slash or a drive |
| `PathText.NodeName` | C++Save/Tmp/ProjectA/Core/Common/Path.cpp:650-693 | Behind a node, a lone name is a directory |
| `PathText.DriveIsLost` | C++Save/Tmp/ProjectA/Core/Common/Path.cpp:894-919 | A path without node and device whose first component looks like a drive (second character ':') does not come back from Windows text |
| `PathText.DeviceReadsAbsolute` | C++Save/Tmp/ProjectA/Core/Common/Path.cpp:894-919 | With a device the relative flag is not printed: behind a one-letter device a relative path is read back as an absolute one, and otherwise unchanged exactly when its absolute form is canonical |
| `PathText.RelativeDevice` | C++Save/Tmp/ProjectA/Core/Common/Path.cpp:603-647 | The Unix text "C:/x" is such a path |
| `PathVms.VmsRoundTripIff` | C++Save/Tmp/ProjectA/Core/Common/Path.cpp:696-813 | Printing and parsing in VMS style undo each other for exactly the canonical paths, with the "-" and "." rules |
| `PathVms.VmsNormalIff` | C++Save/Tmp/ProjectA/Core/Common/Path.cpp:720-788 | A parsed VMS path is in normal form exactly unless the character behind the first '[' makes its directory list absolute and that list uses "-" to climb above the root |
| `PathVms.VmsAccepts` | C++Save/Tmp/ProjectA/Core/Common/Path.cpp:738-801 | A VMS text is refused exactly when a directory list is not closed, or a second list follows a relative one, begins with a dot or is not closed; a list decides by its first character whether the path is absolute |
| `PathVms.VmsDirectories` | C++Save/Tmp/ProjectA/Core/Common/Path.cpp:750-798 | The directories of an accepted text: the first list pushed like a relative path, the second one behind it like an absolute path of which the first is the root |
| `PathVms.ElementsAreNamed` | C++Save/Tmp/ProjectA/Core/Common/Path.cpp:750-769 | Without "-" a list means the names between its dots |
| `PathVms.ClimbingAboveRoot` | C++Save/Tmp/ProjectA/Core/Common/Path.cpp:742-754 | "[A.-.-]" is accepted as an absolute path that contains ".." |
| `HashHistory.Run` | C++Save/Tmp/ProjectA/Core/Common/HashList.h:92-284 | After every legal history of insert, remove and take: no empty slot lies between an entry's home and its place, all hashes are non-negative, no tombstone stands before an empty slot |
| `HashHistory.StepKeepsInv` | C++Save/Tmp/ProjectA/Core/Common/HashList.h:92-284 | The same for each single call, growth included |
| `HashTable.InsertKeepsChains` | C++Save/Tmp/ProjectA/Core/Common/HashList.h:261-284 | Insertion keeps the probe chains |
| `HashTable.RemoveKeepsChains` | C++Save/Tmp/ProjectA/Core/Common/HashList.h:121-140 | Removal with its backward clean-up keeps the probe chains |
| `HashTable.RemoveEffect` | C++Save/Tmp/ProjectA/Core/Common/HashList.h:121-140 | Removal takes out one live entry; other slots are as before or tombstones turned empty |
| `HashTable.RemoveIsTidy` | C++Save/Tmp/ProjectA/Core/Common/HashList.h:125-138 | The clean-up leaves no tombstone in front of an empty slot |
| `HashTable.FoundIffNoTombstone` | C++Save/Tmp/ProjectA/Core/Common/HashList.h:110-145 | remove and take find an entry exactly when no tombstone lies between its home and its place, because they do not step over one |
| `HashTable.FindIsMapLookup` | C++Save/Tmp/ProjectA/Core/Common/HashList.h:150-199 | Without tombstones the probe is the map's lookup |
| `HashTable.InsertIsMapInsert` | C++Save/Tmp/ProjectA/Core/Common/HashList.h:261-284 | Without tombstones insertion is the map's first-value-wins insertion |
| `HashTable.RoomLeft` | C++Save/Tmp/ProjectA/Core/Common/HashList.h:261-284 | While not full, insertion finds a slot or the key |
| `HashHistory.RehashKeepsMap` | C++Save/Tmp/ProjectA/Core/Common/HashList.h:237-254 | Re-inserting slot by slot into the larger table keeps, for each key, the value in its lowest slot, and leaves no key twice |
| `HashHistory.GrowthKeepsLowest` | C++Save/Tmp/ProjectA/Core/Common/HashList.h:237-254 | Growing any table keeps every key, with the entry in its lowest slot and no other; all entries stay exactly when no key had two |
| `HashHistory.RehashIsFresh` | C++Save/Tmp/ProjectA/Core/Common/HashList.h:237-254 | Growing leaves no tombstone and an exact count |
| `HashHistory.Checkup` | C++Save/Tmp/ProjectA/Core/Common/HashList.h:220-259 | The capacity strictly grows when the counter calls for it |
| `HashHistory.GrowthDoubles` | C++Save/Tmp/ProjectA/Core/Common/HashList.h:222-239 | From each capacity growth goes to the next one of the list, at least twice as large but for the last |
| `HashHistory.InsertOnlyRefinesMap` | C++Save/Tmp/ProjectA/Core/Common/HashList.h:92-104 | After any insertions take succeeds exactly for the inserted keys and gives the first value |
| `HashHistory.StepCount` | C++Save/Tmp/ProjectA/Core/Common/HashList.h:173-190 | How far the counter lags behind the live entries: one more with each take that removes, nothing after growth |
| `HashHistory.LagAfterRun` | C++Save/Tmp/ProjectA/Core/Common/HashList.h:173-190 | After any history the counter lags behind the live entries by the number of takes that removed since the table last grew |
| `HashHistory.RefusedIff` | C++Save/Tmp/ProjectA/Core/Common/HashList.h:220-284 | The insertion of an absent key is refused exactly when every slot is in use and the counter does not call for growth |
| `HashHistory.RefusedAfterIff` | C++Save/Tmp/ProjectA/Core/Common/HashList.h:220-284 | From the empty list: exactly when all c slots are in use and, with n removing takes since growth, (c - n) + (c - n) / 4 < c |
| `HashHistory.FullTableRefuses` | C++Save/Tmp/ProjectA/Core/Common/HashList.h:220-284 | A legal history after which an absent key is refused |
| `HashHistory.EveryRunIsHashed` | C++Save/Tmp/ProjectA/Core/Common/HashList.h:92-284 | After every legal history each entry carries its own key's hash |
| `HashHistory.StoredIsFoundIff` | C++Save/Tmp/ProjectA/Core/Common/HashList.h:106-199 | In any such table remove and take find a stored key exactly when no tombstone lies before the key's first entry on the way from its home |
| `HashHistory.StoredAgainIff` | C++Save/Tmp/ProjectA/Core/Common/HashList.h:92-104 | In any such table insert stores a key a second time exactly when the table does not grow and a tombstone lies before the key's first entry |
| `HashHistory.CallsTakeOut` | C++Save/Tmp/ProjectA/Core/Common/HashList.h:106-199 | A remove, or a take that is asked to, takes out the first entry of the key on its way and no other, and lowers the count by one, or by two; a take that is not asked to, and a call that fails, change nothing; all three find the same keys |
| `HashHistory.InsertPutsIn` | C++Save/Tmp/ProjectA/Core/Common/HashList.h:92-104 | An insert that succeeds fills one free slot with the new entry and raises the count by one, after growth if that is due; one that fails does no more than grow |
| `HashHistory.CallsAfterRun` | C++Save/Tmp/ProjectA/Core/Common/HashList.h:92-199 | Both for every history from the empty list and every key; a key that is not there is never found, and refused exactly when the table is full and does not grow |
| `HashHistory.TombstoneHidesEntry` | C++Save/Tmp/ProjectA/Core/Common/HashList.h:119-120 | A legal history after which a stored key is not found and is inserted a second time |
| `HashList.List.InsertInternal` | C++Save/Tmp/ProjectA/Core/Common/HashList.h:261-284 | The probing loop on the array is the insertion function |
| `HashList.List.CheckupSpace` | C++Save/Tmp/ProjectA/Core/Common/HashList.h:220-259 | The growth step and its re-insertion loop on the array |
| `HashList.List.Insert` | C++Save/Tmp/ProjectA/Core/Common/HashList.h:92-104 | One insert step of the history, invariant kept |
| `HashList.List.Unlink` | C++Save/Tmp/ProjectA/Core/Common/HashList.h:123-140 | The clean-up loop on the array terminates and does what the removal function says |
| `HashList.List.Remove` | C++Save/Tmp/ProjectA/Core/Common/HashList.h:106-148 | One remove step of the history, invariant kept |
| `HashList.List.Take` | C++Save/Tmp/ProjectA/Core/Common/HashList.h:150-199 | One take step of the history with the value found, invariant kept |
| `MailboxSpec.SmallestThatFits` | C++Save/Tmp/ProjectA/Core/Server/GlobalObject.cpp:48-54 | A pooled request has a smallest pool that fits, with index below 10 |
| `MailboxSpec.FindPool` | C++Save/Tmp/ProjectA/Core/Server/GlobalObject.cpp:48-53 | The doubling loop finds it |
| `MailboxSpec.PlayerCheckedIff` | C++Save/Tmp/ProjectA/Core/MsgHandler/MsgHandler.cpp:46-84 | Which commands of a player are handled only on the worker the player is seen on: those up to 0xFF on workers 0 to 2, and 0x200 to 0x500 on any; no others |
| `MemBlockPool.MemBlockPool.Alloc` | C++Save/Tmp/ProjectA/Core/Common/MemBlockPool.cpp:18-37 | Pops the linked free list, or a new block when it is empty |
| `MemBlockPool.MemBlockPool.Free` | C++Save/Tmp/ProjectA/Core/Common/MemBlockPool.cpp:39-49 | Pushes the block in front of the linked free list |
| `MemBlockPool.MemBlockPool.Destroy` | C++Save/Tmp/ProjectA/Core/Common/MemBlockPool.cpp:8-16 | Gives up every free block once |
| `MailboxHeap.ExactlyOnePlace` | C++Save/Tmp/ProjectA/Core/Server/GlobalObject.cpp:37-81 | Where ownership holds, every block is in exactly one list, once |
| `MailboxHeap.AcquireKeepsHeap` | C++Save/Tmp/ProjectA/Core/Server/GlobalObject.cpp:37-59 | Allocation keeps single ownership and every block's capacity matched to its size field's pool |
| `MailboxHeap.ReleaseKeepsHeap` | C++Save/Tmp/ProjectA/Core/Server/GlobalObject.cpp:61-81 | Freeing recomputes the same pool, so both are kept |
| `MailboxRuns.StepKeepsInv` | C++Save/Tmp/ProjectA/Core/MsgHandler/MsgHandler.cpp:28-132 | Every locked region and decision of any worker or sender keeps ownership, addressing, tracking, order and verdicts |
| `MailboxRuns.Run` | C++Save/Tmp/ProjectA/Core/MsgHandler/MsgHandler.cpp:28-132 | Any interleaving from a state that keeps them ends in one that does |
| `MailboxRuns.BlocksHaveOneOwner` | C++Save/Tmp/ProjectA/Core/Server/GlobalObject.cpp:37-81 | After any run every block is in exactly one place and a free one is in the pool of its capacity |
| `MailboxRuns.BlocksHoldMessages` | C++Save/Tmp/ProjectA/Core/Server/GlobalObject.cpp:37-59 | Each block has room for its size field, the header and the body of its message |
| `MailboxRuns.Conservation` | C++Save/Tmp/ProjectA/Core/MsgHandler/MsgHandler.cpp:43-131 | Pushed = handled + left by a missing handler + dropped + lost in forwarding + discarded at the end + in flight |
| `MailboxRuns.InFlightOnce` | C++Save/Tmp/ProjectA/Core/MsgHandler/MsgHandler.cpp:70-84 | A message without a fate is carried by exactly one block, and forwarding has changed neither command, player nor body |
| `MailboxRuns.HandledWithItsPlayer` | C++Save/Tmp/ProjectA/Core/MsgHandler/MsgHandler.cpp:47-84 | A player's message that was handled, on a worker where its handler is registered: commands 0x200 to 0x500 on the worker the player was seen on, commands up to 0xFF on workers 0 to 2 likewise and not while the player was jumping |
| `MailboxRuns.AtHomeReached` | C++Save/Tmp/ProjectA/Core/MsgHandler/MsgHandler.cpp:43-131 | In a run in which every decision sees the player on its worker and not jumping, no message is dropped and none is lost |
| `MailboxRuns.FateTells` | C++Save/Tmp/ProjectA/Core/MsgHandler/MsgHandler.cpp:43-131 | In any run: a message without a player is neither dropped nor lost; a dropped one had a command up to 0xFF, on workers 0 to 2, and its player was seen jumping or elsewhere; a lost one had a command 0x200 to 0x500 |
| `MailboxRuns.RunExtends` | C++Save/Tmp/ProjectA/Core/MsgHandler/MsgHandler.cpp:43-131 | A message's fate once set stays; queues' histories only grow |
| `MailboxRuns.RestIsComplete` | C++Save/Tmp/ProjectA/Core/MsgHandler/MsgHandler.cpp:43-131 | When nothing is in flight every message has its fate, every arrival was taken up, every block is back in its pool |
| `MailboxRuns.NeverStuck` | C++Save/Tmp/ProjectA/Core/MsgHandler/MsgHandler.cpp:43-131 | A block outside the free lists can always move on, even if malloc fails from now on |
| `MailboxProgress.CalmStepDrops` | C++Save/Tmp/ProjectA/Core/MsgHandler/MsgHandler.cpp:43-131 | While nothing new is sent and each player stays on one thread, every step of any worker or sender makes the distance to rest smaller |
| `MailboxProgress.CalmIffBusy` | C++Save/Tmp/ProjectA/Core/MsgHandler/MsgHandler.cpp:43-131 | Such a step is possible exactly when the system is not at rest |
| `MailboxProgress.CalmRunsEnd` | C++Save/Tmp/ProjectA/Core/MsgHandler/MsgHandler.cpp:43-131 | So every such run is no longer than the distance, and one that cannot go on has reached rest |
| `MailboxProgress.CanRest` | C++Save/Tmp/ProjectA/Core/MsgHandler/MsgHandler.cpp:43-131 | From every reachable state such a run to rest exists |
| `MailboxProgress.DistanceBound` | C++Save/Tmp/ProjectA/Core/MsgHandler/MsgHandler.cpp:43-131 | The distance is at most 15 steps for each block |
| `MailboxRuns.LostWithoutBlock` | C++Save/Tmp/ProjectA/Core/MsgHandler/MsgHandler.cpp:70-84 | Forwarding loses the message exactly when no block was pushed |
| `MailboxRuns.CanBeLostIff` | C++Save/Tmp/ProjectA/Core/MsgHandler/MsgHandler.cpp:70-84 | Forwarding can lose the message in hand exactly when the player's thread is no worker or no pooled block serves its size |
| `MailboxRuns.LosingRun` | C++Save/Tmp/ProjectA/Core/MsgHandler/MsgHandler.cpp:70-84 | From the empty system, for any message that may be forwarded and any two different threads: a run that sends, takes and forwards it ends with it lost |
| `GlobalObject.GlobalObject.Init` | C++Save/Tmp/ProjectA/Core/Server/GlobalObject.cpp:5-15 | Ten empty pools of doubling size and the largest size noted |
| `GlobalObject.GlobalObject.AllocMsgBlock` | C++Save/Tmp/ProjectA/Core/Server/GlobalObject.cpp:37-59 | The block comes off the free list of the smallest pool that fits, or is new; there is none exactly when malloc fails and no pooled block serves the size; the size field is set; nothing else changes |
| `GlobalObject.GlobalObject.FreeMsgBlock` | C++Save/Tmp/ProjectA/Core/Server/GlobalObject.cpp:61-81 | The block goes in front of the free list its size field names, or to the system |
| `GlobalObject.GlobalObject.PushMsg` | C++Save/Tmp/ProjectA/Core/Server/GlobalObject.h:63-78 | One allocation step and one queueing step of the runs, or the step that records the failure; it succeeds exactly when the worker exists and there is memory or a pooled block for the size |
| `GlobalObject.GlobalObject.GetMsgQueue` | C++Save/Tmp/ProjectA/Core/Server/GlobalObject.h:35-46 | The whole queue at once, in one step of the runs |
| `GlobalObject.GlobalObject.UnInit` | C++Save/Tmp/ProjectA/Core/Server/GlobalObject.cpp:17-35 | Every queue drained through the allocator, a run of the state machine; then each pool gives up exactly the blocks on its free list, in order |
| `MsgHandler.MsgHandler.ProcessMsg` | C++Save/Tmp/ProjectA/Core/MsgHandler/MsgHandler.cpp:28-132 | A run of the state machine that takes up exactly the queued messages in order, deals with each as its verdict says, and calls the handlers on just the messages they were registered for, unchanged; a forward fails exactly for a bad thread number, or when malloc fails and the pool was empty at the start and got no block back from an earlier message of the batch |
| `MsgHandler.MsgHandler.Dispatch` | C++Save/Tmp/ProjectA/Core/MsgHandler/MsgHandler.cpp:46-128 | The branches for one message: one fate, or a move to the player's worker that keeps header and body; a forward fails exactly for a bad thread number or without memory and pooled block; afterwards the message's own block is in its pool |
| `MsgHandler.ActIff` | C++Save/Tmp/ProjectA/Core/MsgHandler/MsgHandler.cpp:46-128 | What becomes of a message, outcome by outcome: dropped exactly with a player, a command up to 0xFF, on workers 0 to 2, seen jumping or elsewhere; forwarded to the player's thread or lost exactly with a player seen elsewhere and a command 0x200 to 0x500; in every other case the handler runs if there is one |
| `MsgHandler.BatchAtHome` | C++Save/Tmp/ProjectA/Core/MsgHandler/MsgHandler.cpp:43-131 | When every player of a batch is seen on this worker and not jumping, nothing is dropped, forwarded or lost, and the handlers run on exactly the messages that have one, in order |
| `MsgHandler.WithoutPlayer` | C++Save/Tmp/ProjectA/Core/MsgHandler/MsgHandler.cpp:47-84 | A message without a player is never dropped, forwarded or lost |
| `MsgHandler.LaterOnesHaveBlocks` | C++Save/Tmp/ProjectA/Core/MsgHandler/MsgHandler.cpp:43-131 | In one batch, a message behind another one whose block goes back to the pool it needs is lost only to a bad thread number |
| `MsgHandler.NoneBack` | C++Save/Tmp/ProjectA/Core/MsgHandler/MsgHandler.cpp:70-84 | A worker never forwards to itself |
| `SlotTable.ApplyAllKeepsSound` | MyPro/runnable/TcpServer.cpp:103-238 | After every sequence of accepts and removes the last slot is live and every conduit's id decodes to its slot |
| `SlotTable.ApplyInBatches` | MyPro/runnable/TcpServer.cpp:275-299 | How the deferred operations fall into batches makes no difference |
| `SlotTable.IdsAreUnique` | MyPro/runnable/TcpServer.cpp:118-129 | id / WORKERS and id % WORKERS give the slot and the slave; no two live conduits share an id |
| `SlotTable.AcceptAddsOne` | MyPro/runnable/TcpServer.cpp:103-206 | An accept adds one connection under a free id and changes no other |
| `SlotTable.RemoveDropsOne` | MyPro/runnable/TcpServer.cpp:209-238 | Removing an own id drops that connection and no other |
| `SlotTable.RemoveSparesOthersIff` | MyPro/runnable/TcpServer.cpp:214-218 | One slave given any id spares all other connections exactly for an own id or an empty slot |
| `SlotTable.RoutedRemove` | MyPro/runnable/TcpServer.cpp:418-421 | Routed by id % WORKERS, a remove ends the connection with that id on whatever slave, and no other |
| `SlotTable.SlotAfter` | MyPro/runnable/TcpServer.cpp:103-238 | After any queue a slot that was in use holds its first connection exactly as long as no remove named it, else the one last accepted into it and not removed since, if any |
| `SlotTable.SecondRemoveIff` | MyPro/runnable/TcpServer.cpp:209-238 | A remove of an own id behind any queue ends a connection accepted in that queue exactly when the queue removed the original and the slot is in use again (the test at line 215); else it ends the original, or nothing |
| `SlotTable.SecondRemoveHitsSuccessor` | MyPro/runnable/TcpServer.cpp:209-238 | Such a queue: remove, accept, and the same remove again |
| `SlotTable.LengthWithinPeak` | MyPro/runnable/TcpServer.cpp:103-238 | The table never grows beyond the peak number of simultaneous connections |
| `SlotTable.CountAccept` | MyPro/runnable/TcpServer.cpp:156-156 | One more live slot with each accept |
| `SlotTable.CountRemove` | MyPro/runnable/TcpServer.cpp:235-235 | One less exactly when a live slot was hit |
| `SlotTable.OpenConserved` | MyPro/runnable/TcpServer.cpp:103-238 | After any operations the open connections are those open before and those accepted, less those ended |
| `SlotTable.NotTakenIn` | MyPro/runnable/TcpServer.cpp:117-150 | An accept for which no conduit is made changes nothing |
| `SlotTable.NegativeIds` | MyPro/runnable/TcpServer.cpp:213-215 | A negative id names slot 0 or one that no vector reaches |
| `SlotTable.SlaveServer.DoAccept` | MyPro/runnable/TcpServer.cpp:103-206 | Keeps: the empty set is exactly the null indices, the count is the number of live conduits; so the reuse loop cannot spin |
| `SlotTable.SlaveServer.DoRemove` | MyPro/runnable/TcpServer.cpp:209-238 | Keeps the same; the shrink loop ends at the last live slot |
| `SlotTable.SlaveServer.OnOpCheck` | MyPro/runnable/TcpServer.cpp:275-299 | Applies the queued operations in order and empties the queue |
| `SlotTable.ReuseTurn` | MyPro/runnable/TcpServer.cpp:107-157 | The reuse loop turns for ever exactly when there are empty slots on record and none of them is inside the vector |
| `SlotTable.SlaveServer.Destroy` | MyPro/runnable/TcpServer.cpp:250-256 | destroy keeps the set of empty slots: later accepts end exactly when the vector had no hole |
| `SlotTable.SpinningAccept` | MyPro/runnable/TcpServer.cpp:107-157 | Two accepts and a remove of the first make a hole, after which destroy leaves the next accept spinning |
| `Random.GoodRandExact` | C++Save/Tmp/ProjectA/Core/Common/Random.cpp:128-139 | For every Int32: 16807 x mod (2^31 - 1) without 32-bit overflow, 0 exactly for the non-zero multiples of 2^31 - 1 |
| `Random.SeedWordIsPower` | C++Save/Tmp/ProjectA/Core/Common/Random.cpp:161-162 | Seeding fills word i with seed * 16807^i mod (2^31 - 1) |
| `Random.SeedWordOfAny` | C++Save/Tmp/ProjectA/Core/Common/Random.cpp:128-162 | The same for every 32-bit seed, taken as signed: 0 stands for 123459876, and a multiple of 2^31 - 1 gives 0 once and then starts over from there |
| `Random.WindowSlides` | C++Save/Tmp/ProjectA/Core/Common/Random.cpp:297-306 | The buffer read cyclically from the front pointer is a window of the recurrence word t = word t-deg + word t-sep, and one step slides it |
| `Random.Generator.Next` | C++Save/Tmp/ProjectA/Core/Common/Random.cpp:282-311 | Call t gives recurrence word t+deg without its low bit, or the congruential word for type 0 |
| `Random.Generator.NextAdditive` | C++Save/Tmp/ProjectA/Core/Common/Random.cpp:294-309 | Pointers stay sep apart and inside the buffer although only one is tested for wrap-around |
| `Random.Generator.Seed` | C++Save/Tmp/ProjectA/Core/Common/Random.cpp:152-169 | Start words, pointers and the discarded outputs |
| `Random.Generator.InitState` | C++Save/Tmp/ProjectA/Core/Common/Random.cpp:216-262 | The largest polynomial that fits the buffer; the encoded first word gives back type and rear pointer; too small a buffer changes nothing |
| `Stream.AllBackIff` | C++Save/Tmp/ProjectA/Core/Common/Stream.h:100-159 | Reading back into variables of the same types gives the list and uses up the buffer exactly when every string is shorter than 65536 bytes and every vector of bytes, which is written without a count, has the length of its variable |
| `Stream.OneBackIff` | C++Save/Tmp/ProjectA/Core/Common/Stream.h:100-159 | The same for one item with anything behind it, whatever the variable held before |
| `Stream.CutShortKeepsOld` | C++Save/Tmp/ProjectA/Core/Common/Stream.h:122-133 | In a vector that is cut short, the elements behind the last byte keep the variable's old values, or are 0 where it had none |
| `Stream.NumberCutShort` | C++Save/Tmp/ProjectA/Core/Common/Stream.h:90-105 | A number that is cut short has the bytes that were there in front and those of its old value behind them |
| `Stream.TextCutShort` | C++Save/Tmp/ProjectA/Core/Common/Stream.h:112-153 | A string that is cut short is what is left of it; a vector of bytes keeps its old bytes behind that |
| `Stream.VectorCutShort` | C++Save/Tmp/ProjectA/Core/Common/Stream.h:122-133 | Of a vector that is cut short every element that is there in full comes back |
| `Stream.FrameLengthIff` | C++Save/Tmp/ProjectA/Core/Common/Stream.h:9-13 | eos stores the payload length exactly when it is below 65536, and touches nothing else |
| `Stream.Stream.Put` | C++Save/Tmp/ProjectA/Core/Common/Stream.h:106-159 | operator<< appends the item's bytes |
| `Stream.Stream.Get` | C++Save/Tmp/ProjectA/Core/Common/Stream.h:100-153 | operator>> reads what is there over the variable's old bytes, which stay where the buffer ends early |
| `Stream.Stream.Read` | C++Save/Tmp/ProjectA/Core/Common/Stream.h:90-99 | Up to the bytes that are left |
| `Stream.Stream.Eos` | C++Save/Tmp/ProjectA/Core/Common/Stream.h:9-13 | The length field in front, if there is room for one |
| `Tokenizer.PiecesRebuild` | C++Save/Tmp/ProjectA/Core/Common/StringTokenizer.cpp:15-41 | Without options the tokens with the separators behind them rebuild the input |
| `Tokenizer.OnlyOneCut` | C++Save/Tmp/ProjectA/Core/Common/StringTokenizer.cpp:15-41 | There is no other way to cut a string so |
| `Tokenizer.PlainTokens` | C++Save/Tmp/ProjectA/Core/Common/StringTokenizer.cpp:15-41 | Without options the tokens are those pieces |
| `Tokenizer.IgnoredEmpty` | C++Save/Tmp/ProjectA/Core/Common/StringTokenizer.cpp:30-34 | TOK_IGNORE_EMPTY drops the empty ones |
| `Tokenizer.TrimmedIff` | C++Save/Tmp/ProjectA/Core/Common/StringTokenizer.cpp:17-29 | TOK_TRIM trims each token exactly when no separator is swallowed with the spaces in front of a later token |
| `Tokenizer.TrimmedWithoutSpaces` | C++Save/Tmp/ProjectA/Core/Common/StringTokenizer.cpp:17-29 | So it does whenever no separator is white space |
| `Tokenizer.TrimmedAndIgnored` | C++Save/Tmp/ProjectA/Core/Common/StringTokenizer.cpp:17-34 | Both options: trimmed and non-empty tokens, whatever the separators |
| `Tokenizer.SwallowedExample` | C++Save/Tmp/ProjectA/Core/Common/StringTokenizer.cpp:17-20 | "a  b" at spaces loses its empty token under TOK_TRIM |
| `Tokenizer.StringTokenizer.constructor` | C++Save/Tmp/ProjectA/Core/Common/StringTokenizer.cpp:8-42 | The three-iterator loops collect exactly those tokens |

## Left out

- Inflate.Uncompress: malformed input and `sourceLen` are not modelled, because the decoder checks no bounds; the input is the encoding of a stream, with stored blocks of wrong complement and the reserved block type as the only errors, and the output buffer is large enough. The 32-bit wrap of `destLen` beyond 4 GB is left out.
- BitReader.Reader.DecodeSymbol: over-subscribed code lengths, where codes overlap.
- Adler32.AddRun: the sixteen unrolled additions are an inner loop of sixteen turns.
- Sha1Engine.Engine.Transform: the macros of the eighty unrolled rounds are four loops of twenty; `byteReverse` is the little-endian build, the big-endian one does nothing there.
- Path.Path.DoParseUnix: the directories of `home()` are a parameter in normal form; environment and working directory are not modelled.
- Path.Path.DoResolve: joining a relative path with itself, where the source walks along a vector it is growing.
- PathText.UnixConcatIsResolve: a second text that is absolute or begins with the home directory, which the first text then no longer leads; and texts in which further components follow one that matters as a device, where the two sides can meet again by chance.
- Path: `append` (which does not keep the normal form), `parseGuess`, extensions, `find`, and the variants of `makeDirectory` and `pushDirectory` that are compiled only on VMS.
- HashList: the mutex, `assign`, `destroy` and `reset`, negative hashes, and calls of `remove` or `take` on a list that was never filled, which divide by zero. The growth ladder ends at 2^31 - 1.
- HashList.List.Take: the lookups of mixed histories are not those of a map; `HashHistory.CallsAfterRun` says what they are.
- GlobalObject.GlobalObject.AllocMsgBlock: size_t is 64 bits wide, so sizes do not wrap; malloc succeeds or fails as a parameter says. The pointer arithmetic between a block's link and its data is not modelled: a block is an object with the link, the size field and the message.
- GlobalObject.GlobalObject.PushMsg: the message is copied as one value; a null body with a non-zero length, which leaves the body unset, is left out.
- MsgHandler.MsgHandler.ProcessMsg: what the player reports (jumping, thread) and whether malloc succeeds is a parameter for each message; the handlers' own code, message printing and the DC logger are not modelled. As a method it runs alone; the interleavings of workers are those of `MailboxRuns`.
- MailboxRuns: locked regions are atomic. There is no fairness, and two workers can forward a message to each other for ever if its player keeps moving; `MailboxProgress` is about players that stay.
- MailboxSpec.Proper: senders are taken to keep command numbers below the size of the handler table, and to put a player only into a game header; the other header types have no player field.
- Queue: the deque is a sequence field.
- SlotTable.SlaveServer.DoAccept: outbound connections (`ss < 0`) and `_connUp`; the append path, whose braces do not balance, is read as the same shape as the reuse path. `newConduit` either makes a conduit or not, as a parameter says.
- SlotTable.RoutedRemove: negative ids, for which the source would index outside its slaves.
- TcpMasterServer beyond its routing of removes, and the event loop.
- Random.SeedWordOfAny: the degrees and separations of the five polynomials are taken from the source as they are.
- Random: floats, `seed()` from the operating system, and the generator's caller-owned memory as anything but 32-bit words.
- Stream.Stream.Get: buffers of 4 GB and more, where `left()` is cut to 32 bits; `remove`, `pop_front`, `prepend` and the cursor operators; writing from a `char*`, which cuts the text to its 16-bit length.
- Stream.OneBackIff: vectors of 2^32 elements and more.
- Tokenizer: `isSpace` is the six ASCII white-space characters.
