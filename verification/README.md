# A verified model of the game server's core

The server is a small online game in C++: a gateway and a logic server exchange packets
over TCP, the logic server keeps players on a map and tells them about each other, and
storage is a Redis database reached through a vendored C client. This project models the
parts whose correctness is hardest to see and proves what they are for.

| file | what it models |
|---|---|
| `RespGrammar.dfy` | Redis reply trees (RESP2), a recursive parser, the printer, and their round trip |
| `RespReader.dfy` | the client library's resumable reader: `RespMachine` is its nine-slot task stack on values, `RespReader` the class over buffer, cursor and stack array |
| `RespSpellings.dfy` | every way a reply can be written on the wire, and that the parser reads exactly these |
| `CommandFormat.dfy` | the two command formatters with their length prediction |
| `HashCommands.dfy` | the server's HMSET and HGETALL on top of them |
| `AsyncMachine.dfy`, `AsyncContext.dfy` | the asynchronous context: callbacks, disconnecting, freeing; on values, and as a class with its linked queue |
| `DictSpec.dfy`, `Dict.dfy` | the chained hash table: its contents on values, and the table of linked entries that grows by relinking them in place, with its iterator |
| `TowerGrid.dfy`, `SortedSets.dfy`, `TowerAoi.dfy` | the area-of-interest index: tower arithmetic, the sorted merge, the index against a naive scan, and the class |
| `GameMap.dfy` | the cells of a map and the walkability test |
| `MapViews.dfy` | who sees whom: view sets over whole runs, and the map module that updates them |
| `ViewLaws.dfy` | that the steps leave nobody out: views told from the events of a run |
| `Bits.dfy`, `Words.dfy`, `Md5.dfy` | bitwise operators, words and bytes, and the streaming MD5 class against RFC 1321 section 3 |
| `BitBytes.dfy`, `Md5Bits.dfy`, `Md5Vectors.dfy` | bits by division and remainder, what the basic functions of MD5 do to them, and two published digests computed step by step |
| `Framing.dfy`, `Transit.dfy` | packets on a byte stream with both receive loops, and server packets that carry client packets |
| `Wrappers.dfy` | shared vocabulary |

## Main results

- The reader is chunk independent: for every stream, every cut and every interleaving with
  requests for replies, it yields what a plain recursive parser makes of the whole stream,
  first error included (`ReaderIgnoresCuts`), and that parser inverts the printer up to
  eight nested arrays and rejects the ninth (`ParseInvertsEncode`). It reads a reply exactly
  when the bytes begin with one of the reply's spellings, both nulls among them
  (`ParsedIff`, `ReaderReadsSpellings`).
- Any sequence of MD5 updates gives the RFC 1321 digest of the concatenation
  (`DigestChunks`), with the 64 unrolled steps equal to the table-driven form; its basic
  functions are pinned bit by bit, and the digests of the empty message and of "abc" are
  those of RFC 1321 appendix A.5 (`RotateMovesBits`, `DigestOfEmpty`, `DigestOfAbc`).
- After any run of logins, readies, moves and logouts views are symmetric, capped, live and
  near (`EveryRunKeepsViews`), and nobody is left out: with at most a hundred players, or
  while no view fills up, two players have each other in view exactly when both have entered
  and their towers see each other, if and only if the events are in order
  (`ViewsToldFromEvents`, `ViewsWithRoom`). The tower index always equals the naive scan
  (`IndexAgreesWithScan`).
- Every accepted callback of an asynchronous context is served exactly once and in order,
  also when callbacks issue commands, disconnect or free, and the commands leave in the
  order of their callbacks (`ExactlyOnceInOrder`).
- The hash table of linked entries is a map through in-place growth, and an iteration that
  deletes what it was just handed keeps its saved link good and visits everything once
  (`VisitAll`).
- Packets survive any fragmentation (`StreamReassembly`), and a client packet sent through
  the gateway comes out byte for byte with its ids (`GatewayRoundTrip`), which lie where the
  header has them (`WrappedPlaces`).

Each class is proved equal, method by method, to functions on values; the properties are
proved about those functions.

## Where the code falls short of its intent

The model follows the code. Where a property that one would expect is false, the exact
condition is proved, with a concrete input that violates it:

- Tower numbers use the number of rows as stride (`projects/logic_svr/tower_aoi.cpp:16`).
  They are in range and distinct exactly when there are as many towers across as down, or
  one row (`TowerIdsWork`, `TowersCollide`). The map that ships is square; the index is
  proved for all grids that meet the condition.
- HMSET is built as one format string. As long as its percent signs are doubled or at the
  very end, tokens survive exactly when none is empty or holds a space or a zero byte, and
  there is no percent sign but as the last byte of the last token (`TokensSurviveIff`,
  `EmptyValueIsLost`, `DoubledPercentIsLost`). With any other percent sign the formatter
  takes what follows for a conversion, which is not part of this model. A caller that
  doubles every percent sign gets any clean tokens across (`EscapedTokensSurvive`).
- A client can get into its own view by reporting ready when the index already knows it:
  after an earlier ready, or after a move to another tower, since nothing orders the two
  commands. A run keeps everybody out of their own view if no such ready occurs
  (`NobodySeesItself`), and in general exactly when each such ready finds no room left, which
  can be counted beforehand (`RunKeepsApartIff`, `ReadyKeepsApartIff`, `DoubleReadySeesItself`,
  `MoveThenReadySeesItself`). Symmetry and the cap hold all the same.
- A player that moves to another tower before its first ready is registered there, but those
  who see both towers do not come into its view (`UnreadyMoverIsLeftOut`). This and a late
  ready are the only steps that spoil views while none is full (`StepStaysExactIff`).
- The comment and the assertion at `commonsrc/deps/hiredis/async.c:322-328` expect an empty
  queue at a clean disconnect, but the test at line 410 looks at the output buffer only. Of
  all calls and events only a read can break the assertion, exactly when its replies run out
  in a context that none of the callbacks served has freed, and that is then disconnecting
  with everything written while callbacks wait (`CleanDisconnectFailsIff`, and
  `CalmReadFailsIff` when the callbacks served neither disconnect nor free; `QuietReadFails`,
  `CallbackDisconnectFails`).
- The walkability test takes a cell it does not find for a free one, so a player can be moved
  off the map beyond its right or lower side, and left of it or above it by the flag of
  another cell (`OffMapIsWalkableIff`, `ShippedMapLetsPlayersOff`). The results about views
  are for moves on the map.
- A length field from -17 to -10 makes a packet of no bytes, on which the receive loops do
  not end; they end on every other stream (`EndsUnlessEmptyPacket`, `SomeBufferNeverEnds`).
  A length from -9 to -2 makes a packet too short for its own header and command
  (`FramedHoldsCommandIff`). Streams of packets built by the server hold neither
  (`StreamReassembly`, `PacketIsFramed`).

## Model

| member | source | states |
|---|---|---|
| RespGrammar.FindCrlf | commonsrc/deps/hiredis/hiredis.c:260-286 | the first carriage return followed by a line feed, and none exactly when there is no such pair |
| RespGrammar.ReadLongLongOfNumber | commonsrc/deps/hiredis/hiredis.c:288-313 | reading a decimal number, signed or not, that ends at a carriage return gives back the number that was printed |
| RespGrammar.ReadItem | commonsrc/deps/hiredis/hiredis.c:355-505 | one item after its type byte: every item read takes at least two bytes; an array opens only with elements and below the deepest level; what waits is not an array on the deepest level. Which reply an item is, is stated by RespSpellings.ParseSpelled and ParsedIff |
| RespGrammar.ReadItemAppend | commonsrc/deps/hiredis/hiredis.c:355-505 | an item once read, or once rejected, is read or rejected the same way whatever bytes follow |
| RespGrammar.ParseInvertsEncode | commonsrc/deps/hiredis/hiredis.c:330-554 | a well-formed reply tree, printed and followed by any bytes, is read back as that tree with exactly the following bytes left, if it nests at most eight arrays, and is rejected as too deep otherwise |
| RespGrammar.ParseInvertsEncodeAll | commonsrc/deps/hiredis/hiredis.c:442-505 | the same for the elements of an array, at every depth |
| RespGrammar.ParseAllInvertsEncodeAll | commonsrc/deps/hiredis/hiredis.c:617-665 | a stream of printed replies reads back as those replies, without an error and with nothing left |
| RespMachine.LinkedSlots | commonsrc/deps/hiredis/hiredis.c:330-353 | the stack invariant slot by slot: at most nine slots, each one's parent is the slot before it, and that parent is an open array with the slot's index below its element count |
| RespMachine.CompleteValid | commonsrc/deps/hiredis/hiredis.c:330-353 | storing a finished reply and moving to the next task keeps the stack invariant; the stack empties exactly when the whole reply is done |
| RespMachine.StepValid | commonsrc/deps/hiredis/hiredis.c:507-554 | processing an item keeps the invariant (so no assertion fails), and every item processed takes at least two bytes, which is why the reading loop ends |
| RespMachine.StepFeed | commonsrc/deps/hiredis/hiredis.c:507-554 | an item that can be processed, or that is an error, comes out the same when more bytes are already there |
| RespMachine.StepResumes | commonsrc/deps/hiredis/hiredis.c:507-554 | an item that had to wait for bytes is resumed, type byte read or not, as if all bytes had been there at once |
| RespMachine.LoopFeed | commonsrc/deps/hiredis/hiredis.c:631-644 | processing items before and after more bytes arrive is processing them after |
| RespMachine.GetFeed | commonsrc/deps/hiredis/hiredis.c:617-665 | asking for a reply early changes nothing in what the reader hands out in all |
| RespMachine.RunDrains | commonsrc/deps/hiredis/hiredis.c:585-665 | for every sequence of feeding and asking, the replies got on the way and those still to come are the replies of the whole stream fed at once, up to the same error |
| RespMachine.LoopParses | commonsrc/deps/hiredis/hiredis.c:617-665 | the stack machine computes what the recursive parser computes, from any point between items |
| RespMachine.LoopParsesMany | commonsrc/deps/hiredis/hiredis.c:442-505 | the same for what is missing of an open array |
| RespMachine.DrainParsesAll | commonsrc/deps/hiredis/hiredis.c:617-665 | asking until nothing comes gives the transcript of the recursive parser, first error included |
| RespMachine.ReaderIgnoresCuts | commonsrc/deps/hiredis/hiredis.c:585-665 | for every byte stream and every way of cutting and asking, the reader from its fresh state yields the transcript the recursive parser gives for the whole stream |
| RespMachine.ReaderInvertsPrinter | commonsrc/deps/hiredis/hiredis.c:585-665 | well-formed replies of at most eight levels, printed and delivered in any pieces with asking in between, come back as exactly those replies |
| RespSpellings.ReadLongLongIs | commonsrc/deps/hiredis/hiredis.c:288-313 | reading a number takes an optional sign and the decimal value of the digits up to the first carriage return, and gives -1 for anything else |
| RespSpellings.ParseSpelled | commonsrc/deps/hiredis/hiredis.c:389-505 | however a reply is spelled (either null, either sign, zeros in front, any two bytes behind a bulk string) and whatever follows, it is read as what it means with the cursor behind it, if its array headers nest to at most eight levels, and is rejected as too deep otherwise |
| RespSpellings.ParseSpelledAll | commonsrc/deps/hiredis/hiredis.c:442-505 | the same for the elements of an array |
| RespSpellings.SpellingOf | commonsrc/deps/hiredis/hiredis.c:507-554 | whatever the parser reads is a proper spelling of the reply it gives |
| RespSpellings.ParsedIff | commonsrc/deps/hiredis/hiredis.c:355-554 | a reply is read off the front of some bytes exactly when they begin with one of its spellings |
| RespSpellings.ParseAllSpelled | commonsrc/deps/hiredis/hiredis.c:617-665 | a stream of spelled replies reads as what they mean, one after another |
| RespSpellings.ReaderReadsSpellings | commonsrc/deps/hiredis/hiredis.c:585-665 | however such a stream is cut, and whenever replies are asked for, the reader hands out exactly what was meant, without an error |
| RespSpellings.PlainLines | commonsrc/deps/hiredis/hiredis.c:389-505 | in literal bytes, in front of anything and below the deepest level: *-1 and $-1 are nil, *0 and *-2 are empty arrays, and a status and an error line are their text |
| RespSpellings.PlainNumbers | commonsrc/deps/hiredis/hiredis.c:288-313 | in literal bytes: a plus sign, a minus sign, a malformed number, and bulk strings that are empty or a line end |
| RespSpellings.OtherTypeBytes | commonsrc/deps/hiredis/hiredis.c:530-532 | any first byte but the five type bytes is refused and named |
| RespReader.SeekNewline | commonsrc/deps/hiredis/hiredis.c:260-286 | the scanning loop, with the zero byte behind the buffer, finds exactly the first line end |
| RespReader.ScanLongLong | commonsrc/deps/hiredis/hiredis.c:288-313 | the digit loop computes the value of the digits up to the carriage return with their sign |
| RespReader.RedisReader.ReadLine | commonsrc/deps/hiredis/hiredis.c:315-328 | returns the unread line and moves the cursor just behind its line end, or moves nothing |
| RespReader.RedisReader.MoveToNextTask | commonsrc/deps/hiredis/hiredis.c:330-353 | the in-place walk up the stack is the completion step on the abstract stack |
| RespReader.RedisReader.ProcessLineItem | commonsrc/deps/hiredis/hiredis.c:355-387 | errors, statuses and integers: the new reader state is the abstract step |
| RespReader.RedisReader.ProcessBulkItem | commonsrc/deps/hiredis/hiredis.c:389-440 | bulk strings, complete, nil or still waiting: the new reader state is the abstract step |
| RespReader.RedisReader.ProcessMultiBulkItem | commonsrc/deps/hiredis/hiredis.c:442-505 | arrays, nil, empty, opened or too deep: the new reader state is the abstract step |
| RespReader.RedisReader.ProcessItem | commonsrc/deps/hiredis/hiredis.c:507-554 | reads the type byte if it is not read yet and processes the item: the new state and the result are the abstract step |
| RespReader.RedisReader.Feed | commonsrc/deps/hiredis/hiredis.c:585-615 | appends the bytes to what is unread, unless an error was met before |
| RespReader.RedisReader.GetReply | commonsrc/deps/hiredis/hiredis.c:617-665 | the loop over items, trimming the buffer so that fewer than 1024 consumed bytes stay, hands out exactly the abstract reply and state |
| CommandFormat.IntLen | commonsrc/deps/hiredis/hiredis.c:668-680 | the predicted width is the number of bytes the decimal takes |
| CommandFormat.BulkLen | commonsrc/deps/hiredis/hiredis.c:682-684 | the predicted length is the length of any bulk string of that size in print |
| CommandFormat.WriteCommand | commonsrc/deps/hiredis/hiredis.c:876-889 | writing header and arguments into a buffer of the predicted length fills it exactly with the printed array |
| CommandFormat.FormatCommandArgv | commonsrc/deps/hiredis/hiredis.c:939-971 | the output is the printed array of the arguments, and the predicted length is the written one |
| CommandFormat.FormatCommand | commonsrc/deps/hiredis/hiredis.c:686-895 | for every format over literals, string, binary and percent pieces, the output is exactly what the argument-vector formatter emits for the words between spaces |
| CommandFormat.CommandReadsBack | commonsrc/deps/hiredis/hiredis.c:939-971 | a formatted command, whatever follows, is read back as the array of its arguments |
| CommandFormat.NumberIsPlain | commonsrc/deps/hiredis/hiredis.c:957-960 | numbers are printed without a plus sign and without leading zeros |
| CommandFormat.PingInBytes | commonsrc/deps/hiredis/hiredis.c:957-967 | PING as a command, in literal bytes |
| CommandFormat.ResumeInsert | commonsrc/deps/hiredis/hiredis.c:728-733 | a literal or inserted piece extends the word at hand |
| CommandFormat.ResumeGap | commonsrc/deps/hiredis/hiredis.c:712-727 | a space ends the word at hand, if one has begun |
| HashCommands.SetHash | commonsrc/src/redis_client.cpp:278-293 | the command sent is the printed array of the words the built string falls into, for every string within the modelled formats |
| HashCommands.TokensSurviveIff | commonsrc/src/redis_client.cpp:278-293 | for every text within the modelled formats: the words sent are HMSET, key, fields and values exactly when every one of them is non-empty and free of spaces and zero bytes, and no percent sign occurs but as the last byte of the last one |
| HashCommands.CleanTokensAreSupported | commonsrc/src/redis_client.cpp:278-293 | tokens of that kind always make a text within the modelled formats |
| HashCommands.EscapesShrink | commonsrc/deps/hiredis/hiredis.c:747-749 | every doubled percent sign costs a byte, so the pieces insert as many bytes as the text has only if there is none |
| HashCommands.EmptyValueIsLost | commonsrc/src/redis_client.cpp:284-289 | a concrete pair with an empty value that does not survive |
| HashCommands.DoubledPercentIsLost | commonsrc/src/redis_client.cpp:284-289 | another one: of a value of two percent signs one arrives, clean as the value is, with all words in literal bytes |
| HashCommands.EscapedTokensSurvive | commonsrc/deps/hiredis/hiredis.c:747-749 | a caller that doubles every percent sign gets any clean tokens across: each doubled one arrives as one |
| HashCommands.EscapedPieces | commonsrc/deps/hiredis/hiredis.c:747-749 | text with every percent sign doubled stands, piece by piece, for the text |
| HashCommands.StringInserted | commonsrc/deps/hiredis/hiredis.c:735-740 | in literal bytes: %s inside a word puts in the argument, whatever it holds, and the word stays one |
| HashCommands.BinaryInserted | commonsrc/deps/hiredis/hiredis.c:741-746 | the same for %b |
| HashCommands.OneWord | commonsrc/deps/hiredis/hiredis.c:706-733 | literal text without spaces around an inserted argument is one word |
| HashCommands.GetHashAll | commonsrc/src/redis_client.cpp:359-379 | the even/odd loop pairs up the elements |
| HashCommands.PairsOfFlatten | commonsrc/src/redis_client.cpp:359-379 | pairing up flattened pairs gives the original pairs |
| HashCommands.PairsAt | commonsrc/src/redis_client.cpp:359-379 | the i-th pair is the elements at 2i and 2i + 1, and there are half as many pairs as elements |
| HashCommands.HashRoundTrip | commonsrc/src/redis_client.cpp:278-379 | for tokens that survive, a hash written and parsed by the server side is HMSET, the key and the flattened pairs; paired up again they are the pairs written |
| HashCommands.GetHashAllKeyIsSafe | commonsrc/src/redis_client.cpp:350 | as an argument of the format, any key at all, empty or with spaces, arrives as one word |
| TowerGrid.TowerIdsWork | projects/logic_svr/tower_aoi.cpp:14-57 | tower numbers are in range and distinct exactly when there are as many towers across as down, or one row |
| TowerGrid.TowersCollide | projects/logic_svr/tower_aoi.cpp:14-17 | a concrete grid, three towers across and two down, on which two towers share a number |
| TowerGrid.TowerAtId | projects/logic_svr/tower_aoi.cpp:14-17 | under that condition every tower has its own slot |
| TowerGrid.TowerIdAt | projects/logic_svr/tower_aoi.cpp:34-57 | and every slot has its tower |
| TowerGrid.ViewIsRectangle | projects/logic_svr/tower_aoi.cpp:73-85 | the clamped rectangle is never empty and holds exactly the towers within view; being in view is symmetric |
| TowerGrid.SeesBoundsCells | projects/logic_svr/tower_aoi.cpp:36-85 | cells within the view distance are in towers within view, and towers within view have cells no further than the view plus two tower sides less two |
| TowerGrid.TowersCoverTheMap | projects/logic_svr/tower_aoi.cpp:37-38 | there are just as many towers as it takes to hold all cells |
| TowerGrid.CellInItsTower | projects/logic_svr/tower_aoi.cpp:59-64 | a cell lies inside its tower |
| SortedSets.MoveOject | projects/logic_svr/tower_aoi.cpp:257-293 | the merge of two ascending sets adds exactly the new, the common and the gone elements to its three outputs |
| TowerTable.EnterAgrees | projects/logic_svr/tower_aoi.cpp:132-175 | adding a watcher at its place keeps the index equal to the naive scan |
| TowerTable.LeaveAgrees | projects/logic_svr/tower_aoi.cpp:132-175 | deleting a watcher at its place keeps the index equal to the naive scan |
| TowerTable.AddObjAgrees | projects/logic_svr/tower_aoi.cpp:189-204 | adding an object keeps the index equal to the naive scan |
| TowerTable.DelObjAgrees | projects/logic_svr/tower_aoi.cpp:189-204 | deleting an object keeps the index equal to the naive scan |
| TowerTable.MoveWatcherAgrees | projects/logic_svr/tower_aoi.cpp:206-255 | moving a watcher keeps the index equal to the naive scan of the new positions |
| TowerTable.MoveObjectAgrees | projects/logic_svr/tower_aoi.cpp:295-311 | moving an object keeps the index equal to the naive scan of the new positions |
| TowerTable.EffectAgrees | projects/logic_svr/tower_aoi.cpp:120-311 | every operation at true positions keeps the index equal to the naive scan |
| TowerTable.RunAgrees | projects/logic_svr/tower_aoi.cpp:120-311 | so does every sequence of operations |
| TowerTable.IndexAgreesWithScan | projects/logic_svr/tower_aoi.cpp:120-311 | from the empty map, after any sequence of operations, each tower's objects are those standing in it and its watchers those whose view rectangle holds it |
| TowerTable.SeenMeansNear | projects/logic_svr/tower_aoi.cpp:149-170 | the objects reported to a watcher include all within the view distance and none further than the view plus two tower sides less two |
| TowerTable.SeenIsStanding | projects/logic_svr/tower_aoi.cpp:149-170 | an object is reported exactly when its tower is in view |
| TowerTable.LeftAnswers | projects/logic_svr/tower_aoi.cpp:132-175 | after a watcher left, every tower's watchers are the naive scan without it |
| TowerAoi.TowerAoi.constructor | projects/logic_svr/tower_aoi.cpp:25-57 | a new index has one empty tower per place |
| TowerAoi.TowerAoi.SweepView | projects/logic_svr/tower_aoi.cpp:149-170 | the nested loops up to the unequal bound end, touch each tower of the rectangle once and no other, and gather exactly their objects |
| TowerAoi.TowerAoi.AddOrDeleteWatcher | projects/logic_svr/tower_aoi.cpp:120-175 | the whole new index and both answers, for adding and for deleting |
| TowerAoi.TowerAoi.AddOrDeleteObject | projects/logic_svr/tower_aoi.cpp:177-204 | the whole new index and the watchers to be told |
| TowerAoi.TowerAoi.MoveWatcher | projects/logic_svr/tower_aoi.cpp:206-255 | across towers the index is that of leaving the old place and entering the new one, and the six outputs grow by exactly the differences of watchers and of objects (itself only in the unchanged watchers); within a tower only the unchanged watchers grow |
| TowerAoi.TowerAoi.MoveObject | projects/logic_svr/tower_aoi.cpp:295-311 | the new index and the three watcher differences, or nothing within a tower |
| ViewLists.DelViewsDetaches | projects/logic_svr/map_module.cpp:138-176 | on symmetric views the deleting loop removes exactly the listed players from mine and me from theirs, despite its early stop |
| ViewLists.AddViewsKeeps | projects/logic_svr/map_module.cpp:202-244 | the adding loop keeps views symmetric and within the cap, and only pairs of me and listed live players are added |
| ViewLists.AddViewsComplete | projects/logic_svr/map_module.cpp:217-243 | a listed live player is in my view afterwards unless one of the two views is full or I see myself |
| ViewLists.LoginKeeps | projects/logic_svr/data_cache.cpp:64-76 | a login keeps the invariant: views symmetric, capped, of live players whose towers are watched, and the index equal to the scan |
| ViewLists.ReadyKeeps | projects/logic_svr/map_module.cpp:91-114 | a client becoming ready keeps the invariant, the second time too |
| ViewLists.MoveKeeps | projects/logic_svr/map_module.cpp:32-90 | a move keeps the invariant, within a tower and across towers, by a ready player or not |
| ViewLists.LogoutKeeps | projects/logic_svr/login_module.cpp:174-190 | a logout keeps the invariant |
| ViewLists.StepKeeps | projects/logic_svr/map_module.cpp:32-136 | every event keeps the invariant |
| ViewLists.EveryRunKeepsViews | projects/logic_svr/map_module.cpp:32-244 | after any run of logins, readies, moves and logouts: a sees b exactly when b sees a, no view is over the cap, every id in a view is live and watches the owner's tower |
| ViewLists.LogoutLeavesNoTrace | projects/logic_svr/map_module.cpp:116-136 | after a logout no remaining player's view holds the departed id |
| ViewLists.ReadyListsSelf | projects/logic_svr/map_module.cpp:100-108 | the watcher list a ready client gets holds itself exactly when the index knows it already, by an earlier ready or by a move to another tower |
| ViewLists.FillsUpIff | projects/logic_svr/map_module.cpp:217-243 | a view is full after the adding loop exactly when what it held and the listed players it lacks, that have room themselves, are together as many as it may hold |
| ViewLists.ReadyKeepsApartIff | projects/logic_svr/map_module.cpp:222-227 | a ready keeps players out of their own views exactly when the index does not know the player yet, or its view and the watchers with lower ids that it lacks, and that have room, fill it up |
| ViewLists.StepKeepsApartIff | projects/logic_svr/map_module.cpp:32-136 | of all events only such a ready can put a player into its own view |
| ViewLists.RunKeepsApartIff | projects/logic_svr/map_module.cpp:32-244 | over a run, nobody is ever in its own view exactly when every ready on the way is one of those that keep players apart |
| ViewLists.NotedFollows | projects/logic_svr/map_module.cpp:32-136 | where players stand and whether the index knows them can be told from the events alone |
| ViewLists.NobodySeesItself | projects/logic_svr/map_module.cpp:32-244 | from the empty server, after any run in which no player reports ready after an earlier ready or a move to another tower since its login, nobody is in its own view |
| ViewLists.DoubleReadySeesItself | projects/logic_svr/map_module.cpp:91-114 | a concrete run, login and ready twice, after which a player is in its own view |
| ViewLists.MoveThenReadySeesItself | projects/logic_svr/map_module.cpp:61 | another one: login, a move to another tower and the very first ready |
| ViewLaws.MoveBringsIntoView | projects/logic_svr/map_module.cpp:71-88 | a move across towers: whoever has entered and sees the new tower but not the old one is in the mover's view and has the mover in view, or one of the two views is full, or the mover sees itself; whoever sees both stays as it was; nobody else is in view; and no other pair changes |
| ViewLaws.ReadyBringsIntoView | projects/logic_svr/map_module.cpp:91-114 | the same for a ready: everybody that has entered and sees the tower, and no view loses anybody |
| ViewLaws.LogoutTakesOutOfView | projects/logic_svr/map_module.cpp:116-176 | a logout takes the player out of every view and changes no view else |
| ViewLaws.SelfSeerBringsNobody | projects/logic_svr/map_module.cpp:227 | a player that sees itself brings nobody into view, by a ready or by a move |
| ViewLaws.SwapIntoView | projects/logic_svr/map_module.cpp:138-244 | the two loops of a move, on any two sets of watchers: who enters, who stays, who leaves |
| ViewLaws.ExactIfAbout | projects/logic_svr/map_module.cpp:138-244 | after a step about one player, all views are exact exactly when that player's pairs are |
| ViewLaws.MoveExactIff | projects/logic_svr/map_module.cpp:32-90 | while no view is full, a move across towers keeps views exact exactly unless the player has not entered and somebody sees both towers |
| ViewLaws.ReadyExact | projects/logic_svr/map_module.cpp:91-114 | while no view is full, a first ready keeps views exact |
| ViewLaws.LateReady | projects/logic_svr/map_module.cpp:222-227 | a ready of a player the index knows puts it into its own view while no view is full |
| ViewLaws.StepStaysExactIff | projects/logic_svr/map_module.cpp:32-136 | while no view is full, exactly the steps named keep views exact: no late ready, and no unnoticed move across towers |
| ViewLaws.RunStaysExactIff | projects/logic_svr/map_module.cpp:32-244 | the same over whole runs, with the condition told from the events alone |
| ViewLaws.FewStayExactIff | projects/logic_svr/map_module.cpp:32-244 | among at most a hundred players the same without looking at any view |
| ViewLaws.ViewsToldFromEvents | projects/logic_svr/map_module.cpp:32-244 | from the empty server, with at most a hundred players at any time: views are exact after every event if and only if the events are in order, and then b is in a's view exactly when both have entered and their towers see each other, all told from the events |
| ViewLaws.ViewsWithRoom | projects/logic_svr/map_module.cpp:32-244 | the same for any number of players as long as no view fills up |
| ViewLaws.ReadyFirstIsOrderly | projects/logic_svr/map_module.cpp:91-114 | reporting ready once after the login and moving across towers only then is always in order |
| ViewLaws.UnreadyMoverIsLeftOut | projects/logic_svr/map_module.cpp:71-88 | a player that moves across towers before its first ready is not in view of those that see both towers, near as they are |
| MapModule.MapModule.SendDelViewPlayers | projects/logic_svr/map_module.cpp:138-176 | the loop with its early stop leaves the view sets that deleting one listed player after another gives |
| MapModule.MapModule.SendAddViewPlayers | projects/logic_svr/map_module.cpp:202-244 | the loop leaves the view sets that adding one listed player after another gives |
| MapModule.MapModule.AddPlayerData | projects/logic_svr/data_cache.cpp:64-76 | a login step on the live players; refused for an id that is there |
| MapModule.MapModule.AddUserToMap | projects/logic_svr/map_module.cpp:91-114 | a ready step on players and index together; nothing for an unknown id |
| MapModule.MapModule.PlayerMove | projects/logic_svr/map_module.cpp:32-90 | a move step on players and index together; nothing for an unknown id or a blocked cell |
| MapModule.MapModule.DelUserFromMap | projects/logic_svr/map_module.cpp:116-136 | everything of a logout step but the player's record |
| MapModule.MapModule.LoginOut | projects/logic_svr/login_module.cpp:174-190 | a logout step, after which no view holds the id |
| GameMap.CellsHaveTheirOwnFlag | projects/logic_svr/define_game_map.h:121-129 | a cell of the map is walkable by its own flag, and no two cells share one |
| GameMap.OffMapIsWalkableIff | projects/logic_svr/data_cache.cpp:344-357 | off the map: always walkable beyond the right or lower side; otherwise by the flag of a cell of a row further up, or of the memory before the cells when there is none |
| GameMap.ShippedMapLetsPlayersOff | projects/logic_svr/define_game_map.h:81-90 | on the map that ships a step off the right side is accepted and leads to no tower |
| Md5Spec.DecodeInvertsEncode | commonsrc/src/md5.cpp:137-156 | words turned into bytes and back are the same words |
| Md5Spec.EncodeInvertsDecode | commonsrc/src/md5.cpp:137-156 | bytes turned into words and back are the same bytes |
| Md5Spec.AbsorbAppend | commonsrc/src/md5.cpp:251-284 | compressing whole blocks in two goes is compressing them in one |
| Md5Spec.CountAdds | commonsrc/src/md5.cpp:256-262 | the two-word counter, with its carry, holds eight times the number of bytes modulo 2 to the 64 |
| Md5Spec.LowCount | commonsrc/src/md5.cpp:254 | the buffer position taken from the low counter word is the number of bytes modulo 64 |
| Md5Bits.FSelects | commonsrc/src/md5.cpp:61-63 | bit by bit, F is y where x is set and z elsewhere |
| Md5Bits.GSelects | commonsrc/src/md5.cpp:65-67 | bit by bit, G is x where z is set and y elsewhere |
| Md5Bits.HIsParity | commonsrc/src/md5.cpp:69-71 | bit by bit, H is the parity of the three |
| Md5Bits.IBits | commonsrc/src/md5.cpp:73-75 | bit by bit, I is y xor (x or not z) |
| Md5Bits.RotateIs | commonsrc/src/md5.cpp:78-80 | rotating moves the high part down and the low part up |
| Md5Bits.RotateMovesBits | commonsrc/src/md5.cpp:78-80 | bit i moves to bit (i + n) modulo 32 |
| Md5.FourFF | commonsrc/src/md5.cpp:84-86 | four unrolled steps of round 1, registers renamed, are four rotating steps of RFC 1321 section 3.4 |
| Md5.FourGG | commonsrc/src/md5.cpp:88-90 | the same for round 2 |
| Md5.FourHH | commonsrc/src/md5.cpp:92-94 | the same for round 3 |
| Md5.FourII | commonsrc/src/md5.cpp:96-98 | the same for round 4 |
| Md5.Round1 | commonsrc/src/md5.cpp:166-182 | the sixteen written-out steps, with their words, shifts and constants, are steps 0 to 15 of the table |
| Md5.Round2 | commonsrc/src/md5.cpp:184-200 | the same for steps 16 to 31 |
| Md5.Round3 | commonsrc/src/md5.cpp:202-218 | the same for steps 32 to 47 |
| Md5.Round4 | commonsrc/src/md5.cpp:220-236 | the same for steps 48 to 63 |
| Md5.SplitWord | commonsrc/src/md5.cpp:148-156 | masks and shifts give the four bytes of a word, low byte first |
| Md5.JoinWord | commonsrc/src/md5.cpp:137-143 | shifting and joining four bytes gives the word they encode |
| Md5.DecodeInto | commonsrc/src/md5.cpp:137-143 | the array is filled with the decoded words |
| Md5.EncodeInto | commonsrc/src/md5.cpp:148-156 | the array is filled with the encoded bytes |
| Md5.MD5.Transform | commonsrc/src/md5.cpp:161-245 | the new state is the table-driven compression of RFC 1321 section 3.4 of the old one |
| Md5.MD5.Update | commonsrc/src/md5.cpp:251-284 | afterwards the object stands for the message so far followed by the input: the state has absorbed all whole blocks, the buffer holds the rest, the counter its length |
| Md5.MD5.FillAndTransform | commonsrc/src/md5.cpp:267-283 | input that fills the buffer: all whole blocks are absorbed and the rest is buffered |
| Md5.MD5.TransformBlocks | commonsrc/src/md5.cpp:268-276 | the buffered block and then every whole block of the input are absorbed, and less than a block is left |
| Md5.MD5.AddLength | commonsrc/src/md5.cpp:256-262 | the counter stands for the sum of the lengths |
| Md5.MD5.Finalize | commonsrc/src/md5.cpp:298-330 | the digest is that of RFC 1321 sections 3.1 to 3.5 of everything fed in; a second call changes nothing |
| Md5.Buffered | commonsrc/src/md5.cpp:254-265 | the buffer begins with the last (length modulo 64) bytes of the message |
| Md5.AbsorbNext | commonsrc/src/md5.cpp:274-275 | one more block is one more compression |
| Md5.PaddingPrefix | commonsrc/src/md5.cpp:311-313 | the part of the padding that is used is that of RFC 1321 section 3.1 |
| Md5.LengthIsCount | commonsrc/src/md5.cpp:307-308 | the saved counter is the length field of RFC 1321 section 3.2 |
| Md5.DigestChunks | commonsrc/src/md5.cpp:251-330 | any sequence of updates and a finalize give the digest of the concatenation |
| Md5Vectors.BasicIsBasicQuad | commonsrc/src/md5.cpp:61-75 | the basic functions, byte by byte with bit vectors |
| Md5Vectors.Row | commonsrc/src/md5.cpp:78-99 | one step with its sum, its rotation and the register it makes |
| Md5Vectors.DigestOfEmpty | commonsrc/src/md5.cpp:161-330 | the digest of the empty message is d41d8cd98f00b204e9800998ecf8427e, in literal bytes |
| Md5Vectors.DigestOfAbc | commonsrc/src/md5.cpp:161-330 | the digest of "abc" is 900150983cd24fb0d6963f7d28e17f72, in literal bytes |
| Md5Vectors.PublishedDigests | commonsrc/src/md5.cpp:251-330 | fed "" or "abc" in any pieces, the class gives those digests |
| AsyncMachine.ScriptQueues | commonsrc/deps/hiredis/async.c:570-632 | whatever a callback does only appends the accepted callbacks to the queue and their commands to the output buffer, in order, and notes down closing |
| AsyncMachine.ServeKeeps | commonsrc/deps/hiredis/async.c:254-262 | taking the head of the queue and invoking it keeps the books: served is a prefix of accepted, answers went to the first served, and each function was called once |
| AsyncMachine.DrainKeeps | commonsrc/deps/hiredis/async.c:270-273 | freeing serves every callback still queued, each once, and ends with an empty queue even if the callbacks issue commands |
| AsyncMachine.FreeNowKeeps | commonsrc/deps/hiredis/async.c:264-305 | a completed free keeps the books, and tells the disconnect handler only if the connection was made |
| AsyncMachine.DisconnectNowKeeps | commonsrc/deps/hiredis/async.c:320-338 | a disconnect frees the context, unless there is no error and callbacks wait, when its assertion aborts |
| AsyncMachine.ProcessKeeps | commonsrc/deps/hiredis/async.c:400-476 | handing out any number of replies keeps the books |
| AsyncMachine.StepKeeps | commonsrc/deps/hiredis/async.c:312-551 | every call and event keeps the books |
| AsyncMachine.RunKeeps | commonsrc/deps/hiredis/async.c:312-551 | so does every run |
| AsyncMachine.ExactlyOnceInOrder | commonsrc/deps/hiredis/async.c:216-476 | in every run the k-th reply goes to the k-th accepted callback; the bytes written, and behind them those still to be written, are the commands in the order of their callbacks, the k-th right behind the first k; the connect handler is told exactly of a connection made; and a freed context has served every accepted callback exactly once, in order, with its reply or NULL, called exactly those with a function, and told the disconnect handler exactly when there was a connection |
| AsyncMachine.EnqueueKeeps | commonsrc/deps/hiredis/async.c:623-626 | accepting commands keeps the books: each callback behind the queue, each command behind the output buffer |
| AsyncMachine.SendKeeps | commonsrc/deps/hiredis/async.c:537-548 | bytes leave at the front of the output buffer, and what is sent and what is left stay the commands in order |
| AsyncMachine.CommandsAt | commonsrc/deps/hiredis/async.c:626 | each command stands right behind those accepted before it |
| AsyncMachine.ScriptIssues | commonsrc/deps/hiredis/async.c:579-626 | a callback's commands are accepted in the order written, up to its first closing call |
| AsyncMachine.ScriptCloses | commonsrc/deps/hiredis/async.c:312-350 | closing calls inside a callback leave exactly their flags |
| AsyncMachine.DrainFrees | commonsrc/deps/hiredis/async.c:264-273 | freeing matches no reply, accepts no command, and ends with freeing asked for exactly if it was or a function called on the way asks |
| AsyncMachine.BrokenOutcome | commonsrc/deps/hiredis/async.c:326-338 | after an error the context is freed, and the disconnect handler hears of an error unless a callback without a reply frees the context on the way |
| AsyncMachine.StepOutcome | commonsrc/deps/hiredis/async.c:312-632 | what every call and event but a read does: a command accepted or refused, freed with success, only marked as disconnecting, connected, refused, broken, or bytes sent |
| AsyncMachine.QuietReadOutcome | commonsrc/deps/hiredis/async.c:407-423 | a read without a reply: a broken stream breaks the connection, a disconnect with everything written is completed or runs into its assertion, and otherwise nothing happens |
| AsyncMachine.StrayReplyOutcome | commonsrc/deps/hiredis/async.c:427-450 | a reply nobody waits for: an error closes the connection with an error, any other runs into the assertion |
| AsyncMachine.FreeingReplyOutcome | commonsrc/deps/hiredis/async.c:455-463 | a callback that frees the context gets the last reply, and the disconnect handler hears of success |
| AsyncMachine.CalmDisconnectOutcome | commonsrc/deps/hiredis/async.c:400-453 | for a disconnecting context with everything written and calm callbacks, by the number of replies: fewer than waiting callbacks hang, as many complete the disconnect, and the first one too many is stray |
| AsyncMachine.PerformIsTheApi | commonsrc/deps/hiredis/async.c:312-351 | inside a callback, freeing and disconnecting only set their flags |
| AsyncMachine.ProcessHangsIff | commonsrc/deps/hiredis/async.c:400-476 | handing out the replies of a read ends in the clean-disconnect assertion exactly when the replies run out in a context, not freed on the way, that is disconnecting with everything written and callbacks waiting |
| AsyncMachine.CleanDisconnectFailsIff | commonsrc/deps/hiredis/async.c:320-338 | of all calls and events, in every reachable context, only a read can run into the clean-disconnect assertion, and it does exactly then |
| AsyncMachine.CalmReadFailsIff | commonsrc/deps/hiredis/async.c:408-413 | when the callbacks that get a reply neither disconnect nor free, that is foreseen before the read: disconnecting, nothing left to write, and fewer replies than waiting callbacks |
| AsyncMachine.QuietReadFails | commonsrc/deps/hiredis/async.c:328 | a concrete run that does: connect, command, disconnect, write, and a read without a reply |
| AsyncMachine.CallbackDisconnectFails | commonsrc/deps/hiredis/async.c:400-413 | another one: of two waiting callbacks the first, given its reply, asks for the disconnect |
| AsyncContext.CallbackList.Push | commonsrc/deps/hiredis/async.c:216-236 | the linked queue gets one node at its end |
| AsyncContext.CallbackList.Shift | commonsrc/deps/hiredis/async.c:238-252 | the linked queue loses its first node, whose callback is returned, or is empty and stays so |
| AsyncContext.AsyncContext.Command | commonsrc/deps/hiredis/async.c:570-632 | the context becomes that of an accepted command, or stays as it is while closing |
| AsyncContext.AsyncContext.RunCallback | commonsrc/deps/hiredis/async.c:254-262 | the function runs with the in-callback flag set, and whatever it does is done to this context |
| AsyncContext.AsyncContext.ServeNext | commonsrc/deps/hiredis/async.c:427-456 | the head is taken off and invoked, or the queue is empty |
| AsyncContext.AsyncContext.FreeNow | commonsrc/deps/hiredis/async.c:264-305 | draining, cleaning up and telling the disconnect handler, as the machine says |
| AsyncContext.AsyncContext.Free | commonsrc/deps/hiredis/async.c:312-316 | sets the flag, and frees unless inside a callback |
| AsyncContext.AsyncContext.DisconnectNow | commonsrc/deps/hiredis/async.c:320-338 | asserts an empty queue, or sets the disconnecting flag after an error, and frees |
| AsyncContext.AsyncContext.Disconnect | commonsrc/deps/hiredis/async.c:346-350 | sets the flag, and disconnects at once only outside callbacks with nothing queued |
| AsyncContext.AsyncContext.ProcessCallbacks | commonsrc/deps/hiredis/async.c:400-476 | the loop over replies, with all its exits, as the machine says |
| AsyncContext.AsyncContext.HandleConnect | commonsrc/deps/hiredis/async.c:481-498 | the first event connects and tells the connect handler, or tells it of the failure and frees the context |
| AsyncContext.AsyncContext.HandleRead | commonsrc/deps/hiredis/async.c:503-522 | a read error disconnects; otherwise the replies are processed |
| AsyncContext.AsyncContext.HandleWrite | commonsrc/deps/hiredis/async.c:524-551 | a write error disconnects; otherwise bytes leave the output buffer |
| DictSpec.SlotInRange | commonsrc/deps/hiredis/dict.c:327 | the mask of a power-of-two size picks the remainder of the hash, a bucket of the table |
| DictSpec.CutGet | commonsrc/deps/hiredis/dict.c:182-210 | without one entry every other key keeps its value, and no key comes twice |
| DictSpec.SetGet | commonsrc/deps/hiredis/dict.c:160-179 | with one value overwritten every other key keeps its value |
| DictSpec.MoveOne | commonsrc/deps/hiredis/dict.c:106-122 | moving one entry to the front of its new bucket loses, doubles and changes nothing: each key of the map is in exactly one of the two tables |
| DictSpec.AllMoved | commonsrc/deps/hiredis/dict.c:123-126 | when the old entries run out, the new table is the same map with the same count, which is what the function's own assertion says |
| DictSpec.AddRefines | commonsrc/deps/hiredis/dict.c:135-154 | a new entry in front of its bucket is one more key of the map |
| DictSpec.ReplaceRefines | commonsrc/deps/hiredis/dict.c:160-179 | overwriting is an update of the map |
| DictSpec.DeleteRefines | commonsrc/deps/hiredis/dict.c:182-210 | cutting out is a removal from the map |
| DictSpec.FlatIsMap | commonsrc/deps/hiredis/dict.c:268-286 | the entries of the buckets are exactly the pairs of the map |
| DictSpec.FlatKeysDiffer | commonsrc/deps/hiredis/dict.c:268-286 | no key occurs twice in the buckets |
| Dict.AllApart | commonsrc/deps/hiredis/dict.c:320-338 | the nodes of different buckets are different, because their keys belong in different slots |
| Dict.ChainedCut | commonsrc/deps/hiredis/dict.c:194-198 | when the entry before one points past it, or the bucket begins behind it, the chain is the old one without it |
| Dict.NextPower | commonsrc/deps/hiredis/dict.c:306-315 | the least power of two from 4 on that is not below the size asked for, or the largest long when that much is asked for |
| Dict.Dict.constructor | commonsrc/deps/hiredis/dict.c:65-85 | a new table is the empty map with no buckets |
| Dict.Dict.Expand | commonsrc/deps/hiredis/dict.c:88-132 | refused, with nothing changed, if there are more entries than buckets asked for; otherwise the same entries, relinked, are the same map in a bucket array of the next power of two |
| Dict.Dict.MoveEntry | commonsrc/deps/hiredis/dict.c:111-121 | saves the link of the entry to the next, overwrites it with the head of its new bucket and makes the entry the head: the rest of the old chain and all other chains are as they were |
| Dict.Dict.MoveBucket | commonsrc/deps/hiredis/dict.c:106-122 | every entry of a bucket is relinked so; what is left and what has moved are always the whole map |
| Dict.Dict.MoveBuckets | commonsrc/deps/hiredis/dict.c:106-126 | bucket after bucket until no entry is left, when the new chains are the whole map |
| Dict.Dict.ExpandIfNeeded | commonsrc/deps/hiredis/dict.c:295-303 | the first four buckets, or twice as many when there are as many entries as buckets, or nothing done; the map is the same and there is a free place |
| Dict.Dict.KeyIndex | commonsrc/deps/hiredis/dict.c:320-338 | -1 exactly for a key of the map, and otherwise the bucket the key belongs in after any growth |
| Dict.Dict.Add | commonsrc/deps/hiredis/dict.c:135-154 | succeeds exactly for a new key, and then the map has the key with its value and is otherwise the same; the table has grown exactly when it was full |
| Dict.Dict.Find | commonsrc/deps/hiredis/dict.c:243-256 | the linked entry that holds the key and its value, or none |
| Dict.Dict.Insert | commonsrc/deps/hiredis/dict.c:144-152 | links a new entry in front of its bucket |
| Dict.Dict.Replace | commonsrc/deps/hiredis/dict.c:160-179 | the map with the key updated, telling whether it is new |
| Dict.Dict.Overwrite | commonsrc/deps/hiredis/dict.c:175-177 | writes the value into the found entry, and all chains are as they were |
| Dict.Dict.Unlink | commonsrc/deps/hiredis/dict.c:194-203 | points past the entry, from the one before it or from the table, and counts it out |
| Dict.Dict.Delete | commonsrc/deps/hiredis/dict.c:182-210 | the map without the key, telling whether it was there; only its bucket changes |
| Dict.DictIterator.constructor | commonsrc/deps/hiredis/dict.c:258-266 | a new iterator has every entry before it |
| Dict.DictIterator.Next | commonsrc/deps/hiredis/dict.c:268-286 | hands out the first of the entries still to come, which is linked in the table and holds the value of its key there, with the link to the next one saved; or nothing when there are none |
| Dict.DictIterator.DeleteVisited | commonsrc/deps/hiredis/dict.c:268-286 | deleting the entry just handed out keeps the saved link on an entry of the table and takes nothing from those still to come |
| Dict.DictIterator.SavedLinkNeedsItsEntry | commonsrc/deps/hiredis/dict.c:279-281 | the saved link is to an entry of the table, and in a table without that entry in its bucket the iterator is not good any more |
| Dict.VisitAll | commonsrc/deps/hiredis/dict.c:258-286 | a whole iteration, with any entries deleted right after they were handed out, visits every pair of the starting map once and leaves exactly the map without the deleted keys |
| Packets.PacketSizeIsLeast | commonsrc/include/base_define.h:115-117 | short of an overflow, the masked size is the least multiple of 8 that holds header, command and data |
| Packets.FrameSizeSign | commonsrc/include/base_define.h:115-117 | in signed arithmetic the size is zero exactly for lengths -17 to -10, and positive, then the rounded one, exactly for lengths above -10 that do not overflow |
| FrameSpec.ExtractConserves | commonsrc/include/function_for_muduo.h:39-59 | packets taken and bytes left make up the buffer, every packet is whole, and no whole packet is left |
| FrameSpec.ExtractSerialized | commonsrc/include/function_for_muduo.h:16-59 | packets written one after another are taken out as those packets, whatever follows |
| FrameSpec.ExtractCut | commonsrc/src/tcp_client.cpp:198-213 | extracting before more bytes arrive and again after is extracting once after |
| FrameSpec.DeliverIgnoresCuts | commonsrc/src/tcp_client.cpp:198-213 | the packets received do not depend on how the stream is cut |
| FrameSpec.StreamReassembly | commonsrc/include/function_for_muduo.h:16-59 | of packets sent, any first part of the stream, in any pieces, yields exactly the packets that arrived in full, in order, and keeps only the beginning of the next |
| FrameSpec.EndsUnlessEmptyPacket | commonsrc/src/tcp_client.cpp:198-213 | the extraction loop ends exactly unless it comes upon a length from -17 to -10 |
| FrameSpec.EmptyPacketStaysPut | commonsrc/include/function_for_muduo.h:39-59 | such a length makes a packet of no bytes, and the buffer stays as it was |
| FrameSpec.SomeBufferNeverEnds | commonsrc/src/tcp_client.cpp:198-213 | a concrete buffer on which the loop does not end |
| FrameSpec.FramedHoldsCommandIff | commonsrc/include/base_define.h:115-117 | a packet off the stream holds its data always, its own header and command exactly for lengths from -1 on, and a transit header behind them exactly for lengths from 7 on |
| Framing.TakenOne | commonsrc/src/tcp_client.cpp:198-213 | a round of a receive loop takes out one packet |
| Framing.Msg2Buffer | commonsrc/include/function_for_muduo.h:16-21 | appends exactly one whole packet |
| Framing.EnouthData | commonsrc/include/function_for_muduo.h:23-37 | tells whether a whole packet is there: then the buffer begins with it, and otherwise with no packet at all, but for the lengths whose packet is empty |
| Framing.NewMsgFormBuffer | commonsrc/include/function_for_muduo.h:39-59 | takes the first packet and leaves the bytes behind it |
| Framing.TcpClient.OnMessage | commonsrc/src/tcp_client.cpp:198-213 | the queue grows by the packets of the buffer, in order, and the buffer keeps the rest |
| Framing.TcpServer.OnMessage | commonsrc/src/tcp_server.cpp:211-226 | the differently shaped loop does the same, with the sender's session on each packet |
| TransitSpec.HeaderInverts | commonsrc/include/base_define.h:78-84 | the two ids survive their twelve bytes, negative ones too |
| TransitSpec.SizeFits | commonsrc/include/base_define.h:115-117 | the unsigned 64-bit and signed 32-bit sizes of a packet agree |
| TransitSpec.PacketIsFramed | commonsrc/include/base_define.h:139-147 | a built packet is exactly one packet of the stream, with its data length in the header |
| TransitSpec.ReceivedIsReadableIff | commonsrc/include/base_define.h:216-228 | for which packets off the stream the analysis reads only what the packet holds |
| TransitSpec.AnalyzeInvertsWrap | commonsrc/include/base_define.h:169-234 | a wrapped packet gives back its command, and for a server command the ids and the inner packet byte for byte; for any other command it comes back itself |
| TransitSpec.GatewayRoundTrip | commonsrc/include/base_define.h:169-234 | client packets wrapped, sent, cut anywhere, reassembled and analysed come out as the same packets with the same user and server, in order |
| Transit.PushImage | commonsrc/include/base_define.h:70-74 | pushing data onto a message makes the message of the joined data |
| Transit.Capacity.PushBack | commonsrc/include/base_define.h:70-74 | the whole memory after the copy and the raised length |
| Transit.Capacity.SetMessage | commonsrc/include/base_define.h:139-147 | the memory begins with the client packet and is otherwise as before, stated also place by place |
| Transit.Capacity.SetServerMessage | commonsrc/include/base_define.h:169-186 | the memory begins with the packet wrapped under the transit command, stated also place by place (command 0x030a, user id from 10, server id from 18, client packet from 22), and is otherwise as before |
| Transit.Capacity.SetServerMessageAck | commonsrc/include/base_define.h:187-200 | the memory begins with the packet wrapped under the transit answer command, stated also place by place (command 0x040a, user id from 10, server id from 18, client packet from 22), and is otherwise as before |
| Transit.Capacity.SetOtherSvrMsg | commonsrc/include/base_define.h:202-214 | the memory begins with the packet wrapped under the given command, stated also place by place (command given, user id from 10, server id from 18, client packet from 22), and is otherwise as before |
| TransitSpec.PacketPlaces | commonsrc/include/base_define.h:139-147 | a client packet place by place: length, zeros, command, data from 10, zeros |
| TransitSpec.WideBytesAt | commonsrc/include/base_define.h:80 | a user id takes eight bytes, low byte first, modulo 2 to the 64 |
| TransitSpec.WrappedPlaces | commonsrc/include/base_define.h:169-186 | a server packet place by place: length with the 12 bytes of the ids, command, user id in the eight bytes from 10, server id in the four from 18, low byte first, client packet from 22, zeros |
| TransitSpec.SmallIdsInBytes | commonsrc/include/base_define.h:176-179 | user 2 and server 1 in literal bytes |
| TransitSpec.NegativeIdsInBytes | commonsrc/include/base_define.h:176-179 | user -1 and server -2 in literal bytes |

## Left out

- Sockets, event loops, threads and locks: arriving bytes, writes and errors are events in any order.
- MySQL, configuration files, the logger, generated protobuf code, chat and character handling: plumbing without a hard property.
- Publish/subscribe and monitor mode: a callback is reused across replies there, so exactly-once is not claimed; contexts here never enter it.
- RespGrammar.ReadLongLongOfNumber: numbers are unbounded, so the overflow of a 64-bit accumulator is not modelled; an array header with a count below one is an empty array (or nil for -1).
- Memory: allocation failures, freeing and the identity of reply objects. The elements of an open array are kept in its stack slot until it is complete, instead of being written into the parent object at once.
- RespReader.RedisReader.Feed: the replacement of an empty but large buffer is not modelled; it has no effect on what is read.
- CommandFormat.FormatCommand: the printf conversions other than string, binary and percent depend on the C library and are excluded from the formats.
- HashCommands.SetHash: the same formats only; what is sent for a text with another percent sign is not stated.
- RespGrammar.ReadItem: its own contract is about bytes consumed, waiting and errors; which reply an item is, is stated by RespSpellings.ParsedIff.
- AsyncMachine.ExactlyOnceInOrder: a callback is any finite list of commands, disconnects and frees, fixed when it is registered; since the statement covers all of them, one that reacts to its reply is covered by the list it ends up doing.
- AsyncMachine.SendKeeps: which bytes the socket takes is left open; any number of them leaves at the front of the output buffer.
- AsyncContext.AsyncContext.HandleConnect: what the connect handler itself does to the context are the calls that follow.
- Dict.Dict.Add: entries are added while there are fewer than 2 to the 31, because bucket indices are returned as signed 32-bit numbers; freeing an unlinked entry, clearing and releasing a table are not modelled.
- TowerGrid.TowerIdsWork: coordinates are 16-bit; the index is proved for grids on which the largest coordinate and the view rectangle fit.
- TowerAoi.TowerAoi.constructor: each tower's own corner and number are not stored, since nothing reads them.
- MapModule.MapModule.PlayerMove: one map; the messages sent to clients and the move counters are not modelled. Moves go to cells of the map; which other cells the walkability test accepts is in GameMap.
- ViewLaws.ViewsToldFromEvents: what a full view leaves out is bounded by MoveBringsIntoView and ReadyBringsIntoView only; a player left out then is not brought in when room appears, which is what the server does.
- ViewLists.MoveKeeps: for moves on the map, like every result about runs with moves (StepKeeps, EveryRunKeepsViews).
- Md5.MD5.Update: an input is at most 2 to the 32 less 65 bytes, so that the block loop's index does not wrap; the hexadecimal form of the digest and clearing the decoded block are left out.
- Packets.FrameSizeSign: a length so large that the signed sum overflows is taken to wrap around.
- Md5Vectors.DigestOfAbc: of the published digests only those of the empty message and of "abc" are computed.
- TransitSpec.AnalyzeSvrMsg: a message is required to hold what is read from it; ReceivedIsReadableIff says which packets off the stream do.
- Transit.Capacity.SetServerMessage: the caller hands over the whole padded client packet and the result fits the 65535 bytes of memory; nothing is claimed otherwise. The variant that allocates its memory is left out.
- The session and connection tables of the TCP server, and reconnecting.
