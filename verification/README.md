# Verified models of the netcwmp client

netcwmp is a TR-069 (CWMP) client that carries its own libraries: three memory allocators, an option
scanner, a JSON parser and printer, an INI store, a DOM, MD5, a hash table and growable buffers, and on top
of them the loop that runs a session with the ACS. This project models those libraries and the loop in Dafny
and proves what they promise. `dafny verify dfyconfig.toml` checks everything.

Code that changes things in place is modelled by classes, arrays and loops, and each method is tied to a
specification on plain values; the laws are lemmas about that specification.

| files | what they model |
|---|---|
| `MpoolState`, `Mpool` | the page-based pool: an integer address space, in-band records, one invariant for all extents |
| `Getopt`, `GetoptLaws` | the permuting option scanner against a scanner that moves nothing, and what command lines mean to it |
| `CjsonText`, `CjsonProofs`, `CjsonMinify`, `CjsonMeaning`, `CjsonUtf8` | JSON texts as printed, parsed and minified, and their laws |
| `CjsonSyntax`, `CjsonTrees`, `CjsonLaws` | the grammar of RFC 8259 as trees: what texts mean, how they are laid out, minified and refused |
| `CjsonPrinter`, `CjsonParser`, `CjsonMinifier` | the loops over measured buffers, and minification in place |
| `IniText`, `IniLaws`, `IniContent`, `Ini` | the streaming lookup and the streaming rewriter of INI files, and what they do line by line |
| `XmlShape`, `XmlNodes`, `XmlTables` | forests as values, the DOM pointers that stand for them, and which node takes which |
| `Md5Spec`, `Md5` | RFC 1321, and the streaming context |
| `Md5Vectors`, `Md5Suite`, `Md5Sine` | the digests of section A.5 of RFC 1321, and its table of sines |
| `Agent`, `AgentTalk` | the session loop under any answers of the network and the ACS, and whole conversations |
| `Hashtab` | the chained hash table against a map |
| `Memory`, `MemoryAllocator` | the size-class allocator |
| `Pool` | the chained arena |
| `Words`, `Bits` | the conversions between the integer types of C, and the bits of a word |
| `Chunk`, `XmlBuffer` | the chunk of fixed buffers, the growable buffer and XML escaping |

Machine types: sizes and addresses are those of a 64-bit target, where `size_t` and `unsigned long` have 64
bits and `int` and `unsigned int` have 32 (`Words`); MD5 is modelled with the 32-bit words that its type UINT4
stands for. `char` is signed, so that the INI code takes the bytes from 128 up as blanks.

Where the code falls short of what is expected of it, the model keeps the code and says exactly when it does
what it should:

- Scanning with `Getopt` ends for every argument vector if and only if the option string does not hold `W;`
  (`ScanEndsExactly`): without long options `-Wx` is returned for ever.
- `cJSON_Minify` of a text that parses in full keeps its value, and runs past the end if and only if the text
  is a string literal left open, which the parser accepts (`MinifyKeepsMeaning`). To it `/*/` is a whole
  comment (`ShortComment`).
- A value put into an INI file is found again if and only if its key is not hidden (`PutThenGet`): the writer
  compares the name with its trailing blanks and the lookup without them, so that `k =1` keeps its old value.
  A value put in double quotes is got without them, except also when the key has the quoted text itself for its
  value, because the file is not written then (`PutQuotedThenGet`, `QuotesStay`).
  A file in which every key is on one line that the writer sees, or none, stays a table through any run of
  puts and erased keys (`FileIsTable`).
- Appending or inserting a node that has a place elsewhere leaves it in both places, against the comment
  "it is first removed"; the pointers stand for a forest if and only if the node was detached or a child
  already (`AppendChild`, `InsertBefore`, `ReplaceChild`). Replacing a child by itself removes it. Inserting
  before no child fails an assertion, when the other tests pass, where the comment promises an append.
- For an empty answer of the ACS the session analysis jumps over the initialiser of the pointer it then
  follows: the session ends when it should if and only if the stray word happens to agree with the flag
  (`EmptyBody`), and both wrong runs exist (`StrayPointerMisleads`). The message sent last is sent again in
  front of the TransferComplete. For an answer that is not XML a value that was never set decides between two
  runs (`UnparsableBody`).
- A TransferComplete can go out more often than the flag was set, because only the call of a method clears the
  buffer: what was sent last is sent again if and only if the reply is no XML and the value never set happens
  to be CWMP_OK, or is empty and the flag is read as set (`SentAgain`). One TransferComplete goes out twice in
  the run of `SentTwice`, and any number of times in those of `SentAgainAndAgain`; `TransferOnce` is the bound
  over all runs. The flag is taken back when the document is made, so that one whose sending fails is lost
  (`OwedIsSent`, `TransferIsLost`).
- The page pool rounds a request and counts its pages in an unsigned long and multiplies them in an unsigned
  int: what it maps covers the request if and only if its pages come to less than 2^32 bytes (`CoversExactly`,
  `SumsCover`). A request of 2^32 bytes gets one page (`FourGigabytes`); the code does not notice, and puts the
  fence behind the block. From 2^64 - 33 on it gets one page too, and the fence goes below the address, over
  the header of the block (`FirstWrapped`, `WrapsExactly`). The contracts of the operations call this outcome
  TooSmall, and promise nothing of the pool after it.
- The size-class allocator takes blocks from its arena only while there is more than one left: the rest of an
  arena of exactly one block goes on the list of its size, and the refill it was taken for overwrites that list,
  so that the block is lost (`ExactFit`).
- `pool_palloc` returns an address without bytes for exactly the seven largest requests (`Palloc`). A pool is
  fit for large allocations if and only if it has 88 bytes or more (`SizeSuits`); below, a large allocation
  calls itself for its cell until malloc refuses, and never succeeds (`PallocLarge`).
- `XmlBufferAppend` passes the length as an int: buffers of 2^31 bytes refuse every append
  (`AppendsBehind`), and an escape is complete if and only if that length is not reached before its last
  character (`KeptAll`). `cwmp_chunk_write_string` returns its count as an int, which for 2^32 - 1 bytes is
  that of an error (`ResultTells`).
- `ini_puts` loses a file whose name ends in a tilde when it rewrites it, because its temporary file is the
  file itself (`TempIsItself`, `Puts`); and rewriting any file loses another one that has its temporary name.
- A copy out of a chunk is the beginning of its contents if and only if nothing but NULs follows the first
  NUL in each copied part of a buffer (`CopiedIsPrefix`).
- `MD5Update` absorbs its input if and only if the bytes that wait in the buffer and the input come to less
  than 2^32; otherwise the bound of its loop wraps and it reads on behind the input (`Update`,
  `StopsExactly`, `OneByteTooMany`). The variadic `MD5` cuts the length of each argument to 32 bits
  (`CutNothing`).

## Model

| member | source | states |
|---|---|---|
| `Words.ToInt` | netcwmp_xo/libcwmp/src/buffer.c:328 | a size_t comes back as the same int if and only if it is below 2^31 |
| `Words.FirstWrong` | netcwmp_xo/libcwmp/src/buffer.c:328 | 2^31 comes back as -2^31, and 2^32 - 1 as -1 |
| `MpoolState.Startup` | netcwmp_xo/libcwmp/src/pool/mpool.c:84-116 | bit_array[k] is 2^k, and the two minimal classes are the least ones that hold a pointer and a free record |
| `MpoolState.SizeToBits` | netcwmp_xo/libcwmp/src/pool/mpool.c:133-144 | the least class whose power reaches the size; past the last class when none does |
| `MpoolState.SizeToFreeBits` | netcwmp_xo/libcwmp/src/pool/mpool.c:161-176 | the class with 2^k <= size < 2^(k+1), zero for an empty chunk |
| `MpoolState.SearchIsSound` | netcwmp_xo/libcwmp/src/pool/mpool.c:589-608 | a chunk filed by size_to_free_bits and found at or above size_to_bits(request) is big enough, and no request reaches a list without free records |
| `MpoolState.PagesBounds` | netcwmp_xo/libcwmp/include/pool/mpool_loc.h:59-62 | the page count is the least that covers size and header |
| `MpoolState.PagesUnique` | netcwmp_xo/libcwmp/include/pool/mpool_loc.h:59-62 | no other page count does |
| `MpoolState.PagesOfRun` | netcwmp_xo/libcwmp/include/pool/mpool_loc.h:59-71 | the user memory of an n-page block needs exactly n pages |
| `MpoolState.RoundingKeepsPages` | netcwmp_xo/libcwmp/src/pool/mpool.c:589-618 | rounding a request to the pointer size never moves it to another page count |
| `MpoolState.RecordFits` | netcwmp_xo/libcwmp/src/pool/mpool.c:440-474 | an in-band next pointer or free record always fits in the chunk it is written to |
| `MpoolState.StoreOutside` | netcwmp_xo/libcwmp/src/pool/mpool.c:407-477 | a store where no extent lies leaves every list, the block chain and every fence readable |
| `MpoolState.OwnWriteKeepsInv` | netcwmp_xo/libcwmp/src/pool/mpool.c:744-785 | a client that writes its own bytes disturbs nothing: disjointness, lists, chain and fences all stay |
| `MpoolState.PlaceKeepsGeometry` | netcwmp_xo/libcwmp/src/pool/mpool.c:407-477 | an extent placed in a hole of a block keeps all extents disjoint, aligned and inside pages |
| `MpoolState.RemoveKeepsGeometry` | netcwmp_xo/libcwmp/src/pool/mpool.c:665-668 | taking an extent away leaves a hole of exactly its length |
| `MpoolState.PushKeepsInv` | netcwmp_xo/libcwmp/src/pool/mpool.c:433-474 | filing room of a block on the list of its class keeps the pool invariant, in all three list formats |
| `MpoolState.PopKeepsInv` | netcwmp_xo/libcwmp/src/pool/mpool.c:665-668 | unlinking the first chunk of a list keeps the invariant and gives all of its room back |
| `MpoolState.LiveKeepsInv` | netcwmp_xo/libcwmp/src/pool/mpool.c:765-774 | room for the request and its fence becomes a live extent; the invariant stays |
| `MpoolState.ReleaseKeepsInv` | netcwmp_xo/libcwmp/src/pool/mpool.c:809-859 | a live extent becomes room again, as long as it was |
| `MpoolState.BlockKeepsInv` | netcwmp_xo/libcwmp/src/pool/mpool.c:614-642 | new pages from outside the pool become a block at the head of the chain, all of it room |
| `MpoolState.SplitPages` | netcwmp_xo/libcwmp/src/pool/mpool.c:501-555 | both parts of a split block are whole pages |
| `MpoolState.SplitKeepsInv` | netcwmp_xo/libcwmp/src/pool/mpool.c:501-555 | splitting a free block into two keeps lists, chain, fences and disjointness |
| `Mpool.OnePage` | netcwmp_xo/libcwmp/src/pool/mpool.c:426-432 | one page is enough for exactly the sizes up to one page of user memory |
| `Mpool.CoversExactly` | netcwmp_xo/libcwmp/src/pool/mpool.c:614-650 | a new block covers the request if and only if its pages come to less than 2^32 bytes; otherwise the product of the unsigned ints wraps and the block is too small |
| `Mpool.FourGigabytes` | netcwmp_xo/libcwmp/src/pool/mpool.c:618-629 | with the default page size a request of 2^32 bytes needs 65537 pages, whose bytes wrap to those of one |
| `Mpool.SumsCover` | netcwmp_xo/libcwmp/src/pool/mpool.c:588-629 | for every unsigned long, with each sum and product wrapped as the code's are: what get_space looks for and maps covers the request and its fence if and only if the pages for these come to less than 2^32 bytes |
| `Mpool.AskedIs` | netcwmp_xo/libcwmp/src/pool/mpool.c:588-592 | the size looked for is the rounded request, and 0 or 8 exactly when that is 2^64 or more |
| `Mpool.WrapsExactly` | netcwmp_xo/libcwmp/src/pool/mpool.c:588-629 | of the requests whose sums wrap: for which no page is mapped, for which one, and for which the size looked for is 0 or 8 |
| `Mpool.FirstWrapped` | netcwmp_xo/libcwmp/src/pool/mpool.c:751-774 | with the default page size, 2^64 - 33 is the first request whose page count wraps to one page, and its fence goes 33 bytes below the address, over the block header; for the one before it no page is mapped |
| `Mpool.RoomFits` | netcwmp_xo/libcwmp/src/pool/mpool.c:652-692 | what the free lists hold always comes to less than 2^32 bytes with its header |
| `Mpool.LeftoverBelowPage` | netcwmp_xo/libcwmp/src/pool/mpool.c:680-708 | what is left over of a chunk with as many pages as the request is below one page, so that the unsigned int does not truncate it |
| `Mpool.RealSizeOfRounded` | netcwmp_xo/libcwmp/src/pool/mpool.c:426-432 | free_pointer files as much as get_space took |
| `Mpool.ChunkIsRun` | netcwmp_xo/libcwmp/src/pool/mpool.c:665-678 | a free chunk that needs several pages starts a block and fills it exactly |
| `Mpool.SameRun` | netcwmp_xo/libcwmp/src/pool/mpool.c:680-708 | a chunk with as many pages as the request is exactly its run, or the rest is below one page |
| `Mpool.LiveIsSafe` | netcwmp_xo/libcwmp/src/pool/mpool.c:744-859 | live extents with their fences are disjoint from each other, from headers and from free chunks, and lie inside the pages of a block |
| `Mpool.ChunkIsTiled` | netcwmp_xo/libcwmp/src/pool/mpool.c:501-555 | every chunk on a list is in its class, and one longer than a page of user memory is a whole block |
| `Mpool.TotalRemove` | netcwmp_xo/libcwmp/src/pool/mpool.c:853-856 | the sum of the live sizes loses exactly the size of what is freed |
| `Mpool.TotalAdd` | netcwmp_xo/libcwmp/src/pool/mpool.c:776-778 | the sum and the number of the live sizes gain exactly the new one |
| `Mpool.ResetFacts` | netcwmp_xo/libcwmp/src/pool/mpool.c:1143-1189 | forgetting every list and every live extent leaves valid, vacant blocks |
| `Mpool.Pool.constructor` | netcwmp_xo/libcwmp/src/pool/mpool.c:891-1033 | an open pool without pages is valid and has nothing live |
| `Mpool.Pool.FreePointer` | netcwmp_xo/libcwmp/src/pool/mpool.c:407-477 | files exactly the room given, at the head of the list of its class, in front of what was there; every other list, and memory outside the room, stays; zero bytes change nothing |
| `Mpool.Pool.SplitBlock` | netcwmp_xo/libcwmp/src/pool/mpool.c:501-555 | cuts a block down to the pages of the size, frees the others, and leaves live extents alone |
| `Mpool.Pool.AllocPages` | netcwmp_xo/libcwmp/src/pool/mpool.c:225-297 | null exactly when the limit is reached or the kernel refuses; otherwise as many bytes as the product of an unsigned int comes to, and the page count follows modulo 2^32 |
| `Mpool.Pool.NewBlock` | netcwmp_xo/libcwmp/src/pool/mpool.c:614-651 | a block of new pages with room for the request and less than a page left over, or nothing changed at all; or, exactly when the pages come to 2^32 bytes or more, a block that ends before the request does: for every size of an unsigned long |
| `Mpool.Pool.TakeChunk` | netcwmp_xo/libcwmp/src/pool/mpool.c:652-692 | the chunk taken is the head of the list asked for, and big enough; when it has more pages than the request they are cut off and filed, and otherwise what is left over is less than a page |
| `Mpool.Pool.RoundedSize` | netcwmp_xo/libcwmp/src/pool/mpool.c:588-592 | the loop ends at the next multiple of the pointer size, or at zero behind the last one |
| `Mpool.Pool.GetSpace` | netcwmp_xo/libcwmp/src/pool/mpool.c:579-719 | the address is the head of the first list, from the class of the request on, that holds anything, and then no page is mapped; only when all are empty it is behind the header of new pages. Either way there is room for the request, its pages come to less than 2^32 bytes, and the rest of what was taken is filed; on failure nothing has changed; the third outcome, only for requests that a new block does not cover or whose size wraps to 0 or 8, is an address and a pool of which nothing is promised |
| `Mpool.Pool.FindSpace` | netcwmp_xo/libcwmp/src/pool/mpool.c:594-719 | the same for a size that has been rounded without wrapping; a block that is too small for it is too small before rounding |
| `Mpool.Pool.AllocMem` | netcwmp_xo/libcwmp/src/pool/mpool.c:744-785 | exactly one live extent more, of the minimum-adjusted size, all bytes of the others kept; or nothing changed; or, only for requests that a new block does not cover, an address and a pool of which nothing is promised |
| `Mpool.Pool.FenceOff` | netcwmp_xo/libcwmp/src/pool/mpool.c:770-779 | a fence behind a block that is too small leaves its header, unless the sum of address and size wraps |
| `Mpool.Pool.Alloc` | netcwmp_xo/libcwmp/src/pool/mpool.c:1214-1253 | the same with the argument errors, and the same choice of the address; a failure leaves the pool as it was; the largest total ever live is kept exactly |
| `Mpool.Pool.Calloc` | netcwmp_xo/libcwmp/src/pool/mpool.c:1281-1326 | the extent of the product modulo 2^64, all its bytes zero; nothing is promised only when a new block does not cover the product |
| `Mpool.Pool.Fill` | netcwmp_xo/libcwmp/src/pool/mpool.c:1281-1326 | memset of a live extent touches no other byte of a client |
| `Mpool.Pool.Write` | netcwmp_xo/libcwmp/src/pool/mpool.c:744-785 | a client may write any byte it owns |
| `Mpool.Pool.FreeMem` | netcwmp_xo/libcwmp/src/pool/mpool.c:809-859 | exactly one live extent less, never a false report, counters follow, bytes of the others kept |
| `Mpool.Pool.Free` | netcwmp_xo/libcwmp/src/pool/mpool.c:1350-1376 | the same with the argument errors; the extent and its fence are at the head of the list of their class |
| `Mpool.Pool.CopyBytes` | netcwmp_xo/libcwmp/src/pool/mpool.c:1499-1511 | memcpy from one live extent into another |
| `Mpool.Pool.Resize` | netcwmp_xo/libcwmp/src/pool/mpool.c:1409-1530 | the old extent is exchanged for a new one that holds min(old, new) of its bytes; on failure nothing has changed; nothing is promised only when a new block does not cover the new size |
| `Mpool.Pool.Clear` | netcwmp_xo/libcwmp/src/pool/mpool.c:1143-1189 | every block becomes one free chunk and nothing is live; the statistics stay |
| `Mpool.Pool.Pick` | netcwmp_xo/libcwmp/src/pool/mpool.c:597-692 | the loop over the lists: the head of the first one that holds anything, from the least class that reaches the size; new pages only when all of them are empty |
| `Mpool.FirstIsOne` | netcwmp_xo/libcwmp/src/pool/mpool.c:597-612 | the list at which the loop stops is the first that holds anything at or above the class of the size, and there is no other such list; when it runs off the end, no list holds anything |
| `Mpool.FiledIsPut` | netcwmp_xo/libcwmp/src/pool/mpool.c:433-474 | filing keeps every other free chunk, and the new one is the first of its list |
| `Mpool.HeadIsFirst` | netcwmp_xo/libcwmp/src/pool/mpool.c:597-612 | a chunk just filed is what a request of its class finds first |
| `Mpool.Pool.FreeThenAlloc` | netcwmp_xo/libcwmp/src/pool/mpool.c:1214-1376 | an extent that has been freed is what the next request of its class is given, without a page from the kernel |
| `Getopt.Find` | netcwmp_xo/cwmpd/src/getopt.c:827 | strchr finds the first occurrence |
| `Getopt.SkipNonOptions` | netcwmp_xo/cwmpd/src/getopt.c:452-454 | all elements passed are non-options, and the one stopped at is not |
| `Getopt.SelectIsPermutation` | netcwmp_xo/cwmpd/src/getopt.c:176-189 | options and non-options together are a rearrangement of the vector |
| `Getopt.SelectExtends` | netcwmp_xo/cwmpd/src/getopt.c:438-455 | each group keeps its original order as elements are passed |
| `Getopt.StepReadsOn` | netcwmp_xo/cwmpd/src/getopt.c:427-504 | every call that does not end the scan leaves fewer elements, or fewer letters of the same one |
| `Getopt.ScanEnds` | netcwmp_xo/cwmpd/src/getopt.c:427-504 | the caller loop ends |
| `Getopt.ScanLoops` | netcwmp_xo/cwmpd/src/getopt.c:870-1093 | with "W;" and no long options the scan of -Wx never ends |
| `Getopt.ScanEndsExactly` | netcwmp_xo/cwmpd/src/getopt.c:823-1162 | scanning ends for every vector if and only if the option string does not ask for the long reading of -W |
| `Getopt.Scanner.constructor` | netcwmp_xo/cwmpd/src/getopt.c:270-332 | starts in the state of the reference scanner |
| `Getopt.Scanner.SwapSegments` | netcwmp_xo/cwmpd/src/getopt.c:214-258 | exchanges two stretches and nothing else |
| `Getopt.Scanner.Exchange` | netcwmp_xo/cwmpd/src/getopt.c:189-266 | argv[first..optind) becomes old[last..optind) + old[first..last), the rest stays, and the bounds delimit the moved non-options |
| `Getopt.BottomSwapped` | netcwmp_xo/cwmpd/src/getopt.c:215-240 | exchanging the shorter non-option stretch with the far end leaves a smaller rotation to do |
| `Getopt.TopSwapped` | netcwmp_xo/cwmpd/src/getopt.c:241-257 | the same for the shorter option stretch |
| `Getopt.Scanner.SkipAhead` | netcwmp_xo/cwmpd/src/getopt.c:438-455 | after rotating and skipping, argv is options, then skipped non-options, then unread elements in original order |
| `Getopt.Scanner.PassDashes` | netcwmp_xo/cwmpd/src/getopt.c:463-474 | "--" joins the options and everything after it the non-options |
| `Getopt.Scanner.Advance` | netcwmp_xo/cwmpd/src/getopt.c:427-504 | what it finds or returns is what the reference scanner finds on the unpermuted vector |
| `Getopt.Scanner.ReadLetter` | netcwmp_xo/cwmpd/src/getopt.c:823-1162 | one option letter is decoded as by the reference scanner, whose reading of letters is that of PlainLetter, RequiredArgument, MissingArgument, OptionalArgument, UnknownLetter and LongLetter |
| `Getopt.Scanner.GetOpt` | netcwmp_xo/cwmpd/src/getopt.c:391-1163 | each call returns the option, optarg and optopt of a scanner that never moves anything, and which CommandLine describes; at -1 argv is stably partitioned with optind at the boundary |
| `Getopt.Scanner.ScanAll` | netcwmp_xo/cwmpd/src/getopt.c:391-1163 | all calls together return the events of the reference scanner, for a command line those of CommandLine, and argv ends partitioned by its marks |
| `Getopt.FindLong` | netcwmp_xo/cwmpd/src/getopt.c:542-570 | an exact name wins; otherwise the first abbreviation, unless a later one means something else; not found only when nothing is abbreviated |
| `GetoptLaws.PlainLetter` | netcwmp_xo/cwmpd/src/getopt.c:823-849 | a letter with neither colon nor semicolon behind it in the option string takes nothing; the scan moves to the next letter, or to the next element when it was the last |
| `GetoptLaws.RequiredArgument` | netcwmp_xo/cwmpd/src/getopt.c:1118-1159 | a letter with one colon takes the rest of its element, and the scan moves one element, or else the next element, and it moves two |
| `GetoptLaws.MissingArgument` | netcwmp_xo/cwmpd/src/getopt.c:1128-1149 | without a next element it is '?' or, when the option string begins with a colon, ':'; optopt is the letter |
| `GetoptLaws.OptionalArgument` | netcwmp_xo/cwmpd/src/getopt.c:1097-1115 | a letter with two colons takes the rest of its element or nothing, never the next element |
| `GetoptLaws.UnknownLetter` | netcwmp_xo/cwmpd/src/getopt.c:834-869 | a letter that does not occur, a colon or a semicolon gives '?' with the letter in optopt |
| `GetoptLaws.LongLetter` | netcwmp_xo/cwmpd/src/getopt.c:870-1093 | 'W' with a semicolon, as code without long options reads it: 'W' is returned without an argument |
| `GetoptLaws.OptionElement` | netcwmp_xo/cwmpd/src/getopt.c:476-504 | an element of '-' and more is read letter by letter |
| `GetoptLaws.DoubleDash` | netcwmp_xo/cwmpd/src/getopt.c:463-474 | '--' ends the scan: it joins the options and all behind it are operands |
| `GetoptLaws.OperandStops` | netcwmp_xo/cwmpd/src/getopt.c:438-500 | with '+' or POSIXLY_CORRECT the first operand ends the scan |
| `GetoptLaws.OperandReturned` | netcwmp_xo/cwmpd/src/getopt.c:486-500 | with '-' an operand is returned as the argument of option 1 |
| `GetoptLaws.OperandSkipped` | netcwmp_xo/cwmpd/src/getopt.c:438-455 | otherwise an operand is passed over and marked as one |
| `GetoptLaws.ScanLine` | netcwmp_xo/cwmpd/src/getopt.c:391-1163 | for any row of options, joined or apart from their arguments, and operands: the events are their meanings, one by one |
| `GetoptLaws.CommandLine` | netcwmp_xo/cwmpd/src/getopt.c:391-1163 | the same for a whole command line: what the calls return, and which elements end up as options and as operands, each in their order |
| `GetoptLaws.NoLongIs` | netcwmp_xo/cwmpd/src/getopt.c:870-876 | the long reading of -W is asked for exactly by 'W;' |
| `GetoptLaws.LogLevel` | netcwmp_xo/cwmpd/src/cwmpd.c:141-145 | cwmpd -d 5 with the option string of cwmpd: one call, 'd' with the argument 5 |
| `CjsonText.Skip` | netcwmp_xo/libcwmp/src/cJSON.c:261 | what is left starts with no blank |
| `CjsonText.Utf8` | netcwmp_xo/libcwmp/src/cJSON.c:192-200 | one to four bytes, four only beyond the basic plane |
| `CjsonText.ParseValue` | netcwmp_xo/libcwmp/src/cJSON.c:287-299 | a value takes at least one character |
| `CjsonProofs.IntRoundTrip` | netcwmp_xo/libcwmp/src/cJSON.c:96-138 | parse_number reads back what print_number wrote, for every 32-bit integer |
| `CjsonProofs.HexRoundTrip` | netcwmp_xo/libcwmp/src/cJSON.c:140-151 | parse_hex4 inverts %04x |
| `CjsonProofs.CharsRoundTrip` | netcwmp_xo/libcwmp/src/cJSON.c:155-248 | parse_string reads back the escapes of print_string_ptr, for every NUL-free byte string |
| `CjsonProofs.StringRoundTrip` | netcwmp_xo/libcwmp/src/cJSON.c:155-248 | the same for the quoted literal |
| `CjsonProofs.ValueRoundTrip` | netcwmp_xo/libcwmp/src/cJSON.c:264-507 | parse_value gives back any printed value, formatted or not, at any depth, and stops right behind it |
| `CjsonProofs.RoundTrip` | netcwmp_xo/libcwmp/src/cJSON.c:264-284 | cJSON_Parse of cJSON_Print and of cJSON_PrintUnformatted gives the value back |
| `CjsonMinify.StringStays` | netcwmp_xo/libcwmp/src/cJSON.c:592 | a printed string literal passes the minifier unchanged |
| `CjsonMinify.ValueMinified` | netcwmp_xo/libcwmp/src/cJSON.c:581-596 | minifying the formatted print of a value gives its unformatted print, before any text |
| `CjsonMinify.MinifyPrint` | netcwmp_xo/libcwmp/src/cJSON.c:581-596 | cJSON_Minify of cJSON_Print is cJSON_PrintUnformatted |
| `CjsonMeaning.CharsKept` | netcwmp_xo/libcwmp/src/cJSON.c:592 | a closed literal is kept and read as before; an open one makes the minifier run off the end |
| `CjsonMeaning.NumberTaken` | netcwmp_xo/libcwmp/src/cJSON.c:96-115 | the text of a number survives the minifier and reads as the same number |
| `CjsonMeaning.ValueKept` | netcwmp_xo/libcwmp/src/cJSON.c:287-345 | what the minifier leaves of any value that parses reads as the same value |
| `CjsonMeaning.MinifyKeepsMeaning` | netcwmp_xo/libcwmp/src/cJSON.c:581-596 | for every text that parses in full: the minified text has the same value; the minifier overruns if and only if the text is an open string literal |
| `CjsonUtf8.Utf8Decodes` | netcwmp_xo/libcwmp/src/cJSON.c:192-200 | the bytes emitted for a scalar value decode to it (section 3 of RFC 3629) |
| `CjsonUtf8.Utf8Unique` | netcwmp_xo/libcwmp/src/cJSON.c:192-200 | no other bytes decode to it |
| `CjsonUtf8.PairReads` | netcwmp_xo/libcwmp/src/cJSON.c:179-200 | a surrogate pair is emitted as its code point (section 7 of RFC 8259) |
| `CjsonUtf8.UnitReads` | netcwmp_xo/libcwmp/src/cJSON.c:179-200 | a single \u escape is emitted as its code unit |
| `CjsonPrinter.PutEscape` | netcwmp_xo/libcwmp/src/cJSON.c:232-243 | the escape of one character, in exactly its measured room |
| `CjsonPrinter.PrintStringPtr` | netcwmp_xo/libcwmp/src/cJSON.c:215-248 | the measured buffer is filled exactly, with the quoted string |
| `CjsonPrinter.PrintNumber` | netcwmp_xo/libcwmp/src/cJSON.c:118-138 | 21 characters hold every 32-bit integer |
| `CjsonPrinter.PrintHasNoNul` | netcwmp_xo/libcwmp/src/cJSON.c:302-317 | a print holds no NUL, so strlen measures all of it |
| `CjsonPrinter.ItemsRoom` | netcwmp_xo/libcwmp/src/cJSON.c:369-379 | the lengths print_array adds up cover what it writes |
| `CjsonPrinter.MembersFit` | netcwmp_xo/libcwmp/src/cJSON.c:468-479 | the lengths print_object adds up cover what it writes |
| `CjsonPrinter.PrintEntries` | netcwmp_xo/libcwmp/src/cJSON.c:368-376 | every entry printed, and the measured length |
| `CjsonPrinter.ComposeArray` | netcwmp_xo/libcwmp/src/cJSON.c:391-402 | the array text, never beyond the measured buffer |
| `CjsonPrinter.PrintArray` | netcwmp_xo/libcwmp/src/cJSON.c:348-403 | print_array leaves the text of the array |
| `CjsonPrinter.ComposeMember` | netcwmp_xo/libcwmp/src/cJSON.c:494-499 | indentation, name, colon and value of one member, within its room |
| `CjsonPrinter.ComposeObject` | netcwmp_xo/libcwmp/src/cJSON.c:490-506 | the object text, never beyond the measured buffer |
| `CjsonPrinter.PrintEmptyObject` | netcwmp_xo/libcwmp/src/cJSON.c:450-459 | an object without members |
| `CjsonPrinter.PrintObject` | netcwmp_xo/libcwmp/src/cJSON.c:442-507 | print_object leaves the text of the object |
| `CjsonPrinter.PrintValue` | netcwmp_xo/libcwmp/src/cJSON.c:302-317 | print_value leaves the text of the value, for every value and depth |
| `CjsonParser.SkipBlanks` | netcwmp_xo/libcwmp/src/cJSON.c:261 | skip |
| `CjsonParser.EscapeFits` | netcwmp_xo/libcwmp/src/cJSON.c:160-205 | the bytes of an escape are never more than the first pass counted for it |
| `CjsonParser.CharsFit` | netcwmp_xo/libcwmp/src/cJSON.c:160-212 | the decoded string is never longer than the first pass counted |
| `CjsonParser.OverrunUnmodelled` | netcwmp_xo/libcwmp/src/cJSON.c:160 | a literal whose first pass steps over the end is one the second pass cannot read |
| `CjsonParser.PutUtf8` | netcwmp_xo/libcwmp/src/cJSON.c:192-200 | the fall-through switch writes the code point backwards as its UTF-8 |
| `CjsonParser.ReadEscape` | netcwmp_xo/libcwmp/src/cJSON.c:171-204 | one escape, decoded in place |
| `CjsonParser.MeasureLiteral` | netcwmp_xo/libcwmp/src/cJSON.c:160 | the first pass counts, unless it steps over the end |
| `CjsonParser.ParseString` | netcwmp_xo/libcwmp/src/cJSON.c:155-212 | parse_string fills a buffer of the counted size with the decoded string and a NUL, or fails as the grammar does |
| `CjsonParser.ParseNumber` | netcwmp_xo/libcwmp/src/cJSON.c:96-115 | parse_number of an integer |
| `CjsonParser.ParseValue` | netcwmp_xo/libcwmp/src/cJSON.c:287-299 | parse_value agrees with the grammar on every text |
| `CjsonParser.ParseArray` | netcwmp_xo/libcwmp/src/cJSON.c:320-345 | the loop of parse_array agrees with the grammar |
| `CjsonParser.ParseMember` | netcwmp_xo/libcwmp/src/cJSON.c:406-439 | one member of an object |
| `CjsonParser.ParseObject` | netcwmp_xo/libcwmp/src/cJSON.c:406-439 | the loop of parse_object agrees with the grammar |
| `CjsonParser.PrintThenParse` | netcwmp_xo/libcwmp/src/cJSON.c:264-284 | parsing the printed buffer returns the value with nothing left |
| `CjsonMinifier.PassLine` | netcwmp_xo/libcwmp/src/cJSON.c:590 | a line comment is passed without being written |
| `CjsonMinifier.PassComment` | netcwmp_xo/libcwmp/src/cJSON.c:591 | a block comment is passed, or the reader overruns |
| `CjsonMinifier.Keep` | netcwmp_xo/libcwmp/src/cJSON.c:593 | one character moved down loses nothing unread: the writer never passes the reader |
| `CjsonMinifier.CopyLiteral` | netcwmp_xo/libcwmp/src/cJSON.c:592 | a string literal is copied whole, or the reader overruns |
| `CjsonMinifier.MinifyInPlace` | netcwmp_xo/libcwmp/src/cJSON.c:581-596 | the text is replaced in place by its minified form, or the reader overruns, exactly as specified |
| `CjsonSyntax.FourHexReads` | netcwmp_xo/libcwmp/src/cJSON.c:140-151 | parse_hex4 reads the number of four hex digits, each in either case |
| `CjsonSyntax.PiecesRead` | netcwmp_xo/libcwmp/src/cJSON.c:155-212 | the characters of a string literal by the grammar of section 7 of RFC 8259, each as it is, with a short escape, as a \u escape in either case, or as a surrogate pair, read as what they mean |
| `CjsonSyntax.StringReads` | netcwmp_xo/libcwmp/src/cJSON.c:155-212 | the same for the quoted literal, as a value |
| `CjsonSyntax.NumberReads` | netcwmp_xo/libcwmp/src/cJSON.c:96-115 | digits without a leading zero, and a minus, read as their number when it is a 32-bit integer |
| `CjsonSyntax.NotAnInteger` | netcwmp_xo/libcwmp/src/cJSON.c:96-115 | a number with a fraction or an exponent, or beyond 32 bits, is never taken for an integer |
| `CjsonSyntax.HalfIsDropped` | netcwmp_xo/libcwmp/src/cJSON.c:179-182 | an escape of NUL, or of a second half of a surrogate pair without its first, stands for nothing |
| `CjsonSyntax.FirstHalfIsDropped` | netcwmp_xo/libcwmp/src/cJSON.c:184-186 | so does a first half that no escape follows |
| `CjsonSyntax.WrongPairIsDropped` | netcwmp_xo/libcwmp/src/cJSON.c:184-188 | and a first half together with the escape that follows, when that is no second half |
| `CjsonSyntax.OtherEscape` | netcwmp_xo/libcwmp/src/cJSON.c:202 | any other character behind a backslash stands for itself |
| `CjsonTrees.TreeReads` | netcwmp_xo/libcwmp/src/cJSON.c:287-439 | any text by the grammar of RFC 8259, with any blanks between its tokens, reads as what it means, before any rest |
| `CjsonTrees.TextReads` | netcwmp_xo/libcwmp/src/cJSON.c:264-284 | the same for cJSON_Parse, with blanks in front |
| `CjsonTrees.FillerGoes` | netcwmp_xo/libcwmp/src/cJSON.c:586-591 | the minifier drops a blank, a line comment, and a block comment up to the first star and slash, its opening star included |
| `CjsonTrees.GapGoes` | netcwmp_xo/libcwmp/src/cJSON.c:586-591 | and any row of them |
| `CjsonLaws.TreeMinified` | netcwmp_xo/libcwmp/src/cJSON.c:581-596 | minifying any text by the grammar, with blanks and comments anywhere between its tokens, drops exactly these, before any rest |
| `CjsonLaws.TextMinified` | netcwmp_xo/libcwmp/src/cJSON.c:581-596 | the same for the whole text, with blanks and comments at both ends |
| `CjsonLaws.ShortComment` | netcwmp_xo/libcwmp/src/cJSON.c:591 | /*/ is a whole comment to the minifier |
| `CjsonLaws.PrintIsText` | netcwmp_xo/libcwmp/src/cJSON.c:302-507 | every print is a text by the grammar, without comments, that means the value printed |
| `CjsonLaws.Layout` | netcwmp_xo/libcwmp/src/cJSON.c:348-507 | the print of an array or an object is its items, joined by commas, between its brackets; formatted, each member on a line of its own with as many tabs as it is deep |
| `CjsonLaws.EmptyLayout` | netcwmp_xo/libcwmp/src/cJSON.c:348-459 | an empty array is two brackets, and an empty object two braces; formatted, with a line end and a tab less than it is deep between them |
| `CjsonLaws.NoValueFails` | netcwmp_xo/libcwmp/src/cJSON.c:287-299 | what begins no value is refused |
| `CjsonLaws.ArrayRefused` | netcwmp_xo/libcwmp/src/cJSON.c:320-345 | an array is refused when another character stands where a comma or the bracket must, behind a comma without a value, and without a first value |
| `CjsonLaws.MemberRefused` | netcwmp_xo/libcwmp/src/cJSON.c:418-423 | a member is refused without its colon or without its value |
| `CjsonLaws.ObjectRefused` | netcwmp_xo/libcwmp/src/cJSON.c:406-439 | an object is refused when another character stands where a comma or the brace must, behind a comma without a name, and without a first name |
| `IniText.SkipLeading` | netcwmp_xo/libcwmp/src/ini.c:67-73 | what is left starts with no blank |
| `IniText.TrimEnd` | netcwmp_xo/libcwmp/src/ini.c:75-82 | a prefix that ends in no blank |
| `IniLaws.CopyKeeps` | netcwmp_xo/libcwmp/src/ini.c:497-507 | copying the rest of the file keeps the lines of every key in it |
| `IniLaws.ExactlyHolds` | netcwmp_xo/libcwmp/src/ini.c:460-466 | a line the writer takes for the key is one the lookup takes for it, and for no other |
| `IniLaws.KeyLineThrough` | netcwmp_xo/libcwmp/src/ini.c:315-328 | a written key line is read back, by the lookup as that key with its text trimmed and without its quotes, and by the writer as that key |
| `IniLaws.PutBefore` | netcwmp_xo/libcwmp/src/ini.c:471-488 | the key inserted before the next section is found, and all else as before |
| `IniLaws.PutInstead` | netcwmp_xo/libcwmp/src/ini.c:489-496 | the key written in place of its line is found, and all else as before |
| `IniLaws.EraseFinds` | netcwmp_xo/libcwmp/src/ini.c:437-470 | erasing a section leaves no line of any of its keys, and all lines of the other sections |
| `IniLaws.PutKeyFinds` | netcwmp_xo/libcwmp/src/ini.c:437-507 | the lines of every key over the file rewritten from behind the header: those of the key put are replaced as specified, all others stay |
| `IniLaws.PutSectionFinds` | netcwmp_xo/libcwmp/src/ini.c:387-435 | the same over the file rewritten from its start |
| `IniLaws.RewrittenFinds` | netcwmp_xo/libcwmp/src/ini.c:338-515 | of the lines of every key of every section only those of the key put change, across all exits of ini_puts: the first one that the writer sees is replaced or left out, or one is added behind |
| `IniLaws.FindsFirst` | netcwmp_xo/libcwmp/src/ini.c:109-187 | the lookup finds the first line that holds the key |
| `IniLaws.RewrittenNormal` | netcwmp_xo/libcwmp/src/ini.c:338-515 | a file whose lines fit the line buffer stays one when it is rewritten |
| `IniLaws.RunFinds` | netcwmp_xo/libcwmp/src/ini.c:338-515 | through any run of puts and erased keys, on any file whose lines fit, the lines of every key of every section are those that the puts of this key make, and the lines fit again |
| `IniLaws.FileIsTable` | netcwmp_xo/libcwmp/src/ini.c:190-226 | a file that stands for a table from section and key to value stands, after any run of puts and erased keys, for the table that the run makes, and the lookup finds exactly what is in it |
| `IniLaws.PutThenGet` | netcwmp_xo/libcwmp/src/ini.c:338-515 | a value without blanks at its ends and not both beginning and ending in a double quote that is put is the value got, if and only if the key is not hidden from the writer or has that value already |
| `IniLaws.PutHidden` | netcwmp_xo/libcwmp/src/ini.c:460-466 | a hidden key keeps the value it had |
| `IniLaws.PutFrame` | netcwmp_xo/libcwmp/src/ini.c:338-515 | every other key of every section keeps its value, after a put and after an erased key |
| `IniLaws.EraseThenGet` | netcwmp_xo/libcwmp/src/ini.c:338-515 | what an erased key reads as: what hid it, or its next line, or nothing |
| `IniLaws.EraseSectionFrame` | netcwmp_xo/libcwmp/src/ini.c:338-515 | erasing a section touches no other; only a later section of the same name shows afterwards |
| `IniLaws.HiddenKeyStays` | netcwmp_xo/libcwmp/src/ini.c:460-466 | on "k =1" the writer and the lookup disagree: the old value is found after a put |
| `Ini.SkipLeadingAt` | netcwmp_xo/libcwmp/src/ini.c:67-73 | the pointer that ini_skip_leading returns |
| `Ini.SkipTrailingAt` | netcwmp_xo/libcwmp/src/ini.c:75-82 | the pointer that ini_skip_trailing returns |
| `Ini.GetKeystring` | netcwmp_xo/libcwmp/src/ini.c:100-181 | the streaming search finds what the lookup over the whole file finds, which is FoundAt of the lines and ReadsBare of the value |
| `Ini.EntryValue` | netcwmp_xo/libcwmp/src/ini.c:168-180 | the value trimmed and without its quotes, as ReadsBare states it |
| `Ini.SaveStrncpy` | netcwmp_xo/libcwmp/src/ini.c:92-98 | at most maxlen - 1 characters and a NUL |
| `Ini.WriteSection` | netcwmp_xo/libcwmp/src/ini.c:299-313 | the section line, within the line buffer for any name |
| `Ini.WriteKey` | netcwmp_xo/libcwmp/src/ini.c:315-328 | the key line, within the line buffer for any key and value |
| `Ini.TempIsItself` | netcwmp_xo/libcwmp/src/ini.c:289-297 | a file is its own temporary file if and only if its name fits the line buffer and ends in a tilde |
| `Ini.Directory.Gets` | netcwmp_xo/libcwmp/src/ini.c:193-218 | the value or the default, cut to the buffer; FoundAt says which value that is |
| `Ini.Directory.Puts` | netcwmp_xo/libcwmp/src/ini.c:338-515 | the file becomes its rewritten form; of the other files exactly the one of the temporary name is gone when the file is rewritten, and none else changes; a file that is its own temporary file is lost when it is rewritten |
| `Ini.Directory.Replace` | netcwmp_xo/libcwmp/src/ini.c:508-514 | the temporary file takes the place of the old one, unless it is the same |
| `Ini.Directory.Rewrite` | netcwmp_xo/libcwmp/src/ini.c:338-515 | the loops of ini_puts write the specified file |
| `Ini.Directory.RewriteSection` | netcwmp_xo/libcwmp/src/ini.c:387-435 | the loop up to the section header |
| `Ini.Directory.CopyLine` | netcwmp_xo/libcwmp/src/ini.c:416-432 | one line before the section, with an empty line before a header |
| `Ini.Directory.RewriteKey` | netcwmp_xo/libcwmp/src/ini.c:437-470 | the loop up to the key, the next section or the end |
| `Ini.Directory.WriteStop` | netcwmp_xo/libcwmp/src/ini.c:471-496 | the key replaced, or inserted before the next section |
| `Ini.Directory.CopyFrom` | netcwmp_xo/libcwmp/src/ini.c:497-507 | the rest of the file |
| `Ini.Directory.Putl` | netcwmp_xo/libcwmp/src/ini.c:561-566 | a number put as its decimal text, under the same conditions |
| `Ini.Directory.Getl` | netcwmp_xo/libcwmp/src/ini.c:228-233 | strtol of the value, or the default |
| `Ini.Directory.PutlThenGetl` | netcwmp_xo/libcwmp/src/ini.c:228-233 | for any names, what is read of the file that ini_puts makes; for names that are written whole into a file whose lines fit, the number put, unless the key is hidden, when it is the old one |
| `Ini.StringReverse` | netcwmp_xo/libcwmp/src/ini.c:520-531 | the string reversed in place |
| `Ini.LongToStr` | netcwmp_xo/libcwmp/src/ini.c:533-551 | the decimal text of every long, the smallest included |
| `Ini.ReversedAt` | netcwmp_xo/libcwmp/src/ini.c:520-531 | position k of the reverse is position len - 1 - k |
| `Ini.StrtolReads` | netcwmp_xo/libcwmp/src/ini.c:228-233 | strtol inverts the decimal text |
| `Ini.NumeralReads` | netcwmp_xo/libcwmp/src/ini.c:228-233 | strtol of blanks, a sign, digits and any rest: the number, or the nearest long |
| `IniContent.ReadsBare` | netcwmp_xo/libcwmp/src/ini.c:168-180 | blanks at both ends of a value go; then the quotes go, when it begins and ends in one, and nothing else |
| `IniContent.EntrySays` | netcwmp_xo/libcwmp/src/ini.c:150-180 | a line of a name, blanks, an equals sign or a colon and a text says this text of this key and of no other |
| `IniContent.OthersSayNothing` | netcwmp_xo/libcwmp/src/ini.c:150-165 | comments and lines without a separator say nothing of any key |
| `IniContent.HeaderIs` | netcwmp_xo/libcwmp/src/ini.c:109-135 | a line opens a section if and only if it begins with its name in brackets |
| `IniContent.KeyFoundAt` | netcwmp_xo/libcwmp/src/ini.c:136-187 | within a section the value is that of the first line that says something of the key, and there is none when the next header comes first |
| `IniContent.FoundAt` | netcwmp_xo/libcwmp/src/ini.c:193-218 | over the whole file: behind the first header of the section, the first line before the next header that says something of the key |
| `IniContent.PutThenRead` | netcwmp_xo/libcwmp/src/ini.c:338-515 | any text that fits its line, put under a key: what is got is the text without the blanks at its ends and its quotes, unless the key is hidden or has this text for its value already |
| `IniContent.PutQuotedThenGet` | netcwmp_xo/libcwmp/src/ini.c:338-515 | a value put in double quotes, blanks at its ends included, is got without them, if and only if the key did not have the quoted text itself for its value and is not hidden or has that value already |
| `IniContent.QuotesStay` | netcwmp_xo/libcwmp/src/ini.c:367-376 | the family in which the quotes stay: the key has the quoted text for its value, so that the file is not written |
| `IniContent.ContentIs` | netcwmp_xo/libcwmp/src/ini.c:136-187 | the content of a file of short lines is these lines |
| `IniContent.CopyContent` | netcwmp_xo/libcwmp/src/ini.c:497-507 | copying a file keeps its content |
| `IniContent.PutKeyKeeps` | netcwmp_xo/libcwmp/src/ini.c:437-507 | of the lines behind the header at most one, which is of the key, is replaced or left out, or one is added; every other line stays, in its place |
| `IniContent.PutSectionKeeps` | netcwmp_xo/libcwmp/src/ini.c:387-435 | the same for the whole file |
| `IniContent.PutsKeeps` | netcwmp_xo/libcwmp/src/ini.c:338-515 | the same for ini_puts across all its exits: what is added is the line of the key, with the header in front at the end of the file, and nothing is added only when the key is erased or has that value already |
| `IniContent.EraseKeeps` | netcwmp_xo/libcwmp/src/ini.c:437-470 | erasing a section whose header has been passed leaves the lines from the next header on |
| `IniContent.EraseSectionKeeps` | netcwmp_xo/libcwmp/src/ini.c:387-470 | the lines of the section go, its header included, and all others stay in their order |
| `IniContent.EraseSectionContent` | netcwmp_xo/libcwmp/src/ini.c:338-515 | the same for ini_puts without a key, and for the lines in front of the first header |
| `XmlShape.DetachSound` | netcwmp_xo/libcwmp/src/xmlet/node.c:870-910 | taking a child away leaves a forest |
| `XmlShape.AttachSound` | netcwmp_xo/libcwmp/src/xmlet/node.c:929-987 | adding a root at any place of a list leaves a forest, unless it is an ancestor |
| `XmlShape.DetachThenAttach` | netcwmp_xo/libcwmp/src/xmlet/node.c:870-910 | a child taken away and put back changes nothing |
| `XmlShape.DetachBeside` | netcwmp_xo/libcwmp/src/xmlet/node.c:886-903 | only the neighbours see a sibling go |
| `XmlShape.AttachBeside` | netcwmp_xo/libcwmp/src/xmlet/node.c:764-778 | only the neighbours see a sibling come |
| `XmlShape.UnderDeeper` | netcwmp_xo/libcwmp/src/xmlet/node.c:583-610 | a descendant is deeper, so there are no cycles |
| `XmlShape.ReachesStep` | netcwmp_xo/libcwmp/src/xmlet/node.c:583-610 | the recursion of the ancestor test |
| `XmlShape.AncestorReaches` | netcwmp_xo/libcwmp/src/xmlet/node.c:583-610 | a proper ancestor is always found |
| `XmlShape.ReachesExactly` | netcwmp_xo/libcwmp/src/xmlet/node.c:583-610 | for a detached node or a child of the target nothing but a proper ancestor is found |
| `XmlShape.ReplaceKids` | netcwmp_xo/libcwmp/src/xmlet/node.c:809-854 | insert before and remove replace exactly one child in exactly one list |
| `XmlShape.AppendKids` | netcwmp_xo/libcwmp/src/xmlet/node.c:929-987 | append puts a root last, and moves a child there |
| `XmlNodes.IsAncestor` | netcwmp_xo/libcwmp/src/xmlet/node.c:583-610 | the pointer recursion decides exactly whether the node is reached, later siblings included |
| `XmlNodes.RemoveChild` | netcwmp_xo/libcwmp/src/xmlet/node.c:870-910 | the error codes; on success the pointers stand for the forest without the child; on failure nothing changes |
| `XmlNodes.AppendChild` | netcwmp_xo/libcwmp/src/xmlet/node.c:929-987 | the error codes, type by type as in AppendDetached; on success the pointers stand for the forest with the child last if and only if it was detached or a child already, and not the parent itself |
| `XmlNodes.InsertBefore` | netcwmp_xo/libcwmp/src/xmlet/node.c:722-787 | the same for the place before the reference child, which must be another node, as in InsertDetached; without a reference child the assertion fails exactly when the earlier tests pass |
| `XmlNodes.ReplaceChild` | netcwmp_xo/libcwmp/src/xmlet/node.c:809-854 | the same for replacing a child, as in ReplaceDetached; one replaced by itself is removed |
| `XmlNodes.Misplaced` | netcwmp_xo/libcwmp/src/xmlet/node.c:929-987 | a node with a place elsewhere makes the pointers stand for no forest |
| `XmlNodes.LinkedIn` | netcwmp_xo/libcwmp/src/xmlet/node.c:764-778 | the pointers set at a child and its neighbours stand for the forest with it |
| `XmlNodes.Unlinked` | netcwmp_xo/libcwmp/src/xmlet/node.c:886-903 | the pointers left by a removal stand for the forest without it |
| `XmlTables.AppendDetached` | netcwmp_xo/libcwmp/src/xmlet/node.c:929-987 | a detached child of the same document that is no ancestor: under an element it is taken if and only if it is neither an attribute nor a document, under a document if and only if it is an element, under an attribute, a text or a CDATA section never; when taken it is the last child, and otherwise nothing changes |
| `XmlTables.AppendRefused` | netcwmp_xo/libcwmp/src/xmlet/node.c:929-987 | a child of another document or an ancestor is refused with its error, and nothing changes |
| `XmlTables.InsertDetached` | netcwmp_xo/libcwmp/src/xmlet/node.c:722-787 | the same table; when taken the child is just before the reference child |
| `XmlTables.ReplaceDetached` | netcwmp_xo/libcwmp/src/xmlet/node.c:809-854 | the same table; when taken the child is in the place of the old one, which is detached and returned |
| `XmlTables.InsertRefused` | netcwmp_xo/libcwmp/src/xmlet/node.c:722-854 | for types that would be taken: the errors in their order, an ancestor, another document, and a reference child of another parent |
| `XmlTables.InsertNowhere` | netcwmp_xo/libcwmp/src/xmlet/node.c:722-787 | without a reference child the assertion fails, and nothing changes |
| `XmlTables.InsertedAs` | netcwmp_xo/libcwmp/src/xmlet/node.c:764-778 | the forest with the child just before the reference child |
| `XmlTables.ReplacedAs` | netcwmp_xo/libcwmp/src/xmlet/node.c:809-854 | the forest with the child in the place of the old one |
| `Md5Spec.Selects` | netcwmp_xo/libcwmp/src/md5.c:78-81 | F and G select, H and I combine, bit by bit (section 3.4 of RFC 1321) |
| `Bits.RotateBack` | netcwmp_xo/libcwmp/src/md5.c:86 | the shifts rotate: turning back gives the word |
| `Md5Spec.BytesWord` | netcwmp_xo/libcwmp/src/md5.c:356-398 | Encode and Decode are inverse on a word |
| `Md5Spec.PaddedIsWhole` | netcwmp_xo/libcwmp/src/md5.c:217-229 | message, padding and length are whole blocks |
| `Md5Spec.AbsorbJoins` | netcwmp_xo/libcwmp/src/md5.c:171-183 | absorbing two messages one after the other is absorbing their concatenation |
| `Md5.Row1` | netcwmp_xo/libcwmp/src/md5.c:263-278 | four in-place operations of round 1 are four steps of RFC 1321 on rotating registers |
| `Md5.Row2` | netcwmp_xo/libcwmp/src/md5.c:281-296 | four in-place operations of round 2 are four steps of RFC 1321 on rotating registers |
| `Md5.Row3` | netcwmp_xo/libcwmp/src/md5.c:299-314 | four in-place operations of round 3 are four steps of RFC 1321 on rotating registers |
| `Md5.Row4` | netcwmp_xo/libcwmp/src/md5.c:317-332 | four in-place operations of round 4 are four steps of RFC 1321 on rotating registers |
| `Md5.Transform` | netcwmp_xo/libcwmp/src/md5.c:246-350 | MD5Transform is the compression function of section 3.4 of RFC 1321, whose table SineIs and whose shifts, order of words and start values the digests of section A.5 pin down |
| `Md5.Decode` | netcwmp_xo/libcwmp/src/md5.c:382-398 | little-endian words of the block |
| `Md5.Encode` | netcwmp_xo/libcwmp/src/md5.c:356-375 | little-endian bytes of the words |
| `Md5.CountAdds` | netcwmp_xo/libcwmp/src/md5.c:157-164 | the 32-bit carry code adds 8 * len modulo 2^64 |
| `Md5.IndexOfCount` | netcwmp_xo/libcwmp/src/md5.c:155 | the low count tells how many bytes wait |
| `Md5.StopsExactly` | netcwmp_xo/libcwmp/src/md5.c:179-180 | behind the last whole block the bound of the loop wraps exactly when the bytes waiting and the input come to 2^32 |
| `Md5.OneByteTooMany` | netcwmp_xo/libcwmp/src/md5.c:179-180 | with one byte waiting and 2^32 - 1 more the bound is 62 and the loop goes on |
| `Md5.PaddingIs` | netcwmp_xo/libcwmp/src/md5.c:217-224 | the padding of MD5Final is that of section 3.1 |
| `Md5.Context.constructor` | netcwmp_xo/libcwmp/src/md5.c:120-132 | an empty message |
| `Md5.Context.CountBits` | netcwmp_xo/libcwmp/src/md5.c:157-164 | the count stays 8 * length modulo 2^64 |
| `Md5.Context.FirstBlock` | netcwmp_xo/libcwmp/src/md5.c:171-177 | filling the buffer absorbs one block |
| `Md5.Context.MoreBlocks` | netcwmp_xo/libcwmp/src/md5.c:179-180 | the loop absorbs all whole blocks; it stops behind them if and only if the bytes waiting and the input come to less than 2^32, and otherwise begins again |
| `Md5.Context.Update` | netcwmp_xo/libcwmp/src/md5.c:141-194 | state and buffer always stand for the concatenation of everything given, if and only if the bytes waiting and the input come to less than 2^32; otherwise the loop reads behind the end |
| `Md5.Context.Final` | netcwmp_xo/libcwmp/src/md5.c:202-241 | the digest of the concatenation, whatever the split; the context is cleared |
| `Md5.Context.Clear` | netcwmp_xo/libcwmp/src/md5.c:236-239 | every word and byte of the context is zero |
| `Md5.HexToString` | netcwmp_xo/libcwmp/src/util.c:79-90 | two hex digits a byte and a NUL |
| `Md5.ConvertToHex` | netcwmp_xo/libcwmp/src/util.c:117-135 | the same text by other comparisons |
| `Md5.CutNothing` | netcwmp_xo/libcwmp/src/util.c:104-107 | an argument reaches MD5Update whole if and only if its strlen is below 2^32 |
| `Md5.DigestOf` | netcwmp_xo/libcwmp/src/util.c:94-113 | variadic MD5 is the hex digest of its arguments in a row, each cut to its strlen modulo 2^32, if and only if no update comes to 2^32 bytes |
| `Md5Sine.SineIs` | netcwmp_xo/libcwmp/src/md5.c:263-332 | each of the 64 constants is the integer part of 2^32 * \|sin(i + 1)\|, for the sine and cosine of 1 as the limits of their series, and the addition theorems |
| `Md5Suite.EmptyDigest` | netcwmp_xo/libcwmp/src/md5.c:120-350 | the digest of the empty message is that of section A.5 of RFC 1321 |
| `Md5Suite.AbcDigest` | netcwmp_xo/libcwmp/src/md5.c:120-350 | so is that of abc |
| `Md5Suite.LengthIs` | netcwmp_xo/libcwmp/src/md5.c:213-229 | the two length words stand for 8 * length modulo 2^64, the low one first |
| `Agent.StepKeeps` | netcwmp_xo/cwmpd/src/agent.c:241-393 | one turn of the loop under any answer keeps the session invariant |
| `Agent.RunKeeps` | netcwmp_xo/cwmpd/src/agent.c:213-408 | so does every run |
| `Agent.EndLeadsToExit` | netcwmp_xo/cwmpd/src/agent.c:358-371 | END is entered without new data only, and leads to EXIT |
| `Agent.AtMostFiveAttempts` | netcwmp_xo/cwmpd/src/agent.c:48-95 | never more than five failed connections in a row |
| `Agent.KeepsTrying` | netcwmp_xo/cwmpd/src/agent.c:346-357 | after each of the first four refusals it starts again |
| `Agent.GivesUpAfterFive` | netcwmp_xo/cwmpd/src/agent.c:346-357 | the fifth refusal ends the session |
| `Agent.InformComesFirst` | netcwmp_xo/cwmpd/src/agent.c:261-298 | the first request on a connection holds its Inform |
| `Agent.TransferOnce` | netcwmp_xo/cwmpd/src/agent.c:282-298 | over all runs, the requests sent that hold a TransferComplete are at most the times the flag was set, and one more for each flag word read off the stack, each fault queued behind what was sent last, and each reconnection |
| `Agent.SentAgain` | netcwmp_xo/cwmpd/src/agent.c:411-574 | after any run, what was sent last is sent once more, with one message behind it, if and only if the reply is no XML and the unset value is CWMP_OK, or is empty and the flag is read as set; the call of a method makes for new messages only; otherwise the connection ends |
| `Agent.SentAgainAndAgain` | netcwmp_xo/cwmpd/src/agent.c:444-449 | the bound is attained for every n: the flag is set once, n bodies are no XML, and the one TransferComplete goes out n + 1 times |
| `Agent.SentTwice` | netcwmp_xo/cwmpd/src/agent.c:444-460 | the shortest run in which one TransferComplete is sent twice, event by event |
| `Agent.FlagIsOwed` | netcwmp_xo/cwmpd/src/agent.c:527-553 | in every run the flag says whether it has been set since the last TransferComplete made for it |
| `Agent.OwedIsSent` | netcwmp_xo/cwmpd/src/agent.c:527-562 | an owed TransferComplete is made if and only if the reply is a call without an answer or an empty body whose flag is read rightly, and then is sent if and only if sending succeeds; when it is made and sending fails it is owed no more |
| `Agent.TransferIsLost` | netcwmp_xo/cwmpd/src/agent.c:286-303 | the run in which it is lost: made, not sent, and the session closes with a clear flag |
| `Agent.EmptyBody` | netcwmp_xo/cwmpd/src/agent.c:426-432 | after any run, an empty body ends the session if and only if no TransferComplete is owed, exactly when the flag is read rightly; when it goes on, what was sent last is sent again in front |
| `Agent.StrayPointerMisleads` | netcwmp_xo/cwmpd/src/agent.c:522-536 | two whole runs: one closes with the flag set and no TransferComplete made, one sends a TransferComplete although the flag was never set |
| `Agent.UnparsableBody` | netcwmp_xo/cwmpd/src/agent.c:444-449 | after any run that has just received a body that is not XML, the value never set decides whether the fault is queued and sent behind what was sent last, or the session closes without another word |
| `Agent.Loop.constructor` | netcwmp_xo/cwmpd/src/agent.c:213-239 | a created session |
| `Agent.Loop.AnalyseReply` | netcwmp_xo/cwmpd/src/agent.c:411-575 | the assignments of the analysis are its specified step, of which CallIsAnswered and CallIsAcknowledged say what it sends |
| `Agent.Loop.CheckEvent` | netcwmp_xo/cwmpd/src/agent.c:527-553 | the flag is read once and taken back |
| `Agent.Loop.Turn` | netcwmp_xo/cwmpd/src/agent.c:245-389 | one turn of the switch is one step |
| `Agent.Loop.StartSession` | netcwmp_xo/cwmpd/src/agent.c:241-393 | the loop is the run of its answers, whose requests Conversation gives one by one |
| `AgentTalk.CallIsAnswered` | netcwmp_xo/cwmpd/src/agent.c:476-562 | after any run, the call of a method with an answer is answered with exactly that response, if sending succeeds; an owed TransferComplete stays owed |
| `AgentTalk.CallIsAcknowledged` | netcwmp_xo/cwmpd/src/agent.c:527-562 | after any run, a call without an answer gets an empty request, or the TransferComplete that is owed and then is owed no more |
| `AgentTalk.NoReply` | netcwmp_xo/cwmpd/src/agent.c:317-371 | when receiving fails the session goes to EXIT over END and sends nothing |
| `AgentTalk.AfterExit` | netcwmp_xo/cwmpd/src/agent.c:372-384 | behind EXIT the session starts again if and only if another connection is asked for, and is closed for ever otherwise |
| `AgentTalk.Greets` | netcwmp_xo/cwmpd/src/agent.c:261-303 | each connection begins with the Inform, behind what was sent last, and reads the event flag once |
| `AgentTalk.OneCall` | netcwmp_xo/cwmpd/src/agent.c:411-562 | one exchange adds one request: the response, the TransferComplete or nothing |
| `AgentTalk.Conversation` | netcwmp_xo/cwmpd/src/agent.c:241-393 | for any row of calls of the ACS, by induction on it: the requests are the Inform, and then one for each call, the response to it, the TransferComplete once at the first call without an answer when it is owed, or nothing |
| `AgentTalk.Farewell` | netcwmp_xo/cwmpd/src/agent.c:241-408 | an empty reply ends that conversation, when nothing is owed, without another request, whatever comes after |
| `Hashtab.ParaHash` | netcwmp_xo/libcwmp/src/paratab.c:11-23 | the slot is one of the table, whatever the key |
| `Hashtab.HashAppends` | netcwmp_xo/libcwmp/src/paratab.c:20-22 | one more character rotates the value by four bits and is put in by exclusive or, from the left to the right |
| `Hashtab.HashMasks` | netcwmp_xo/libcwmp/src/paratab.c:23 | for a table of 2^k slots the slot is the remainder of the value; that of the empty key is 0 |
| `Hashtab.CompareDecides` | netcwmp_xo/libcwmp/src/hashtab.c:80-97 | the order of the chains is that of the first character that differs, and a prefix comes first |
| `Hashtab.InUseCounts` | netcwmp_xo/libcwmp/src/hashtab.c:147-171 | counting chain by chain counts the slots in use |
| `Hashtab.Parahash` | netcwmp_xo/libcwmp/src/paratab.c:11-23 | the accumulating loop computes it |
| `Hashtab.StopsRightly` | netcwmp_xo/libcwmp/src/hashtab.c:80-97 | in a sorted chain the search may stop at the first key not below |
| `Hashtab.InsertSorted` | netcwmp_xo/libcwmp/src/hashtab.c:50-74 | insertion where the walk stops keeps a chain strictly sorted |
| `Hashtab.VisitMeans` | netcwmp_xo/libcwmp/src/hashtab.c:123-144 | a visit not stopped has seen every entry; one stopped has seen them up to the one that stopped it |
| `Hashtab.VisitJoins` | netcwmp_xo/libcwmp/src/hashtab.c:123-144 | visiting chain after chain is visiting their concatenation |
| `Hashtab.VisitedOnce` | netcwmp_xo/libcwmp/src/hashtab.c:123-144 | the entries visited are the keys of the map, each once |
| `Hashtab.Table.constructor` | netcwmp_xo/libcwmp/src/hashtab.c:13-40 | an empty map |
| `Hashtab.Table.Search` | netcwmp_xo/libcwmp/src/hashtab.c:80-97 | the datum of the key, or nothing |
| `Hashtab.Table.Insert` | netcwmp_xo/libcwmp/src/hashtab.c:42-78 | fails exactly on a present key or a full table; otherwise the map gains the pair |
| `Hashtab.Table.Link` | netcwmp_xo/libcwmp/src/hashtab.c:61-77 | the new node keeps every chain sorted and every key in its bucket |
| `Hashtab.Table.Splice` | netcwmp_xo/libcwmp/src/hashtab.c:68-74 | the pointers of the new node; all other chains stay linked |
| `Hashtab.Map` | netcwmp_xo/libcwmp/src/hashtab.c:123-144 | returns and visits as specified |
| `Hashtab.Stat` | netcwmp_xo/libcwmp/src/hashtab.c:147-171 | the number of slots whose chain is not empty, and the length of the longest chain |
| `Memory.RoundUp` | netcwmp_xo/libcwmp/src/memory.c:146-149 | the least multiple of 8 not below |
| `Memory.FreeListIndex` | netcwmp_xo/libcwmp/src/memory.c:153-156 | list k holds blocks of exactly 8 * (k + 1) bytes |
| `Memory.PushSound` | netcwmp_xo/libcwmp/src/memory.c:293-316 | a block put on its list keeps all blocks, lists and the arena apart |
| `Memory.PopSound` | netcwmp_xo/libcwmp/src/memory.c:272-279 | a block taken off its list, too |
| `Memory.OwnerWrites` | netcwmp_xo/libcwmp/src/memory.c:256-287 | an owner may write any word of its block |
| `Memory.LiveIsApart` | netcwmp_xo/libcwmp/src/memory.c:256-287 | live blocks overlap neither each other, nor a free block, nor the arena; a free block of list k has 8 * (k + 1) bytes |
| `Memory.LinkAllBuilds` | netcwmp_xo/libcwmp/src/memory.c:235-249 | the linking loop builds the list that pushing the blocks one by one would |
| `Memory.BuildSound` | netcwmp_xo/libcwmp/src/memory.c:220-252 | the blocks of a refill are apart from each other and from everything else |
| `Memory.ForgetSound` | netcwmp_xo/libcwmp/src/memory.c:220-252 | overwriting a list loses its blocks and harms nothing else |
| `MemoryAllocator.Allocator.constructor` | netcwmp_xo/libcwmp/src/memory.c:46-49 | empty lists, no arena |
| `MemoryAllocator.Allocator.ChunkAlloc` | netcwmp_xo/libcwmp/src/memory.c:160-217 | as many blocks as the arena has more than room for, up to the number asked, from its start; when it has none, its rest goes on the list of its size and the arena is the answer of malloc; it recurses at most once |
| `MemoryAllocator.Allocator.Take` | netcwmp_xo/libcwmp/src/memory.c:166-179 | a stretch from the start of the arena |
| `MemoryAllocator.Allocator.Grow` | netcwmp_xo/libcwmp/src/memory.c:182-214 | the rest of the arena goes on its list and malloc fills it |
| `MemoryAllocator.Allocator.Refill` | netcwmp_xo/libcwmp/src/memory.c:220-252 | the new block is the first of those cut off, and the others are the list of their size, in the order of their addresses; every block known before is kept |
| `MemoryAllocator.Allocator.FillList` | netcwmp_xo/libcwmp/src/memory.c:231-249 | the first block is live and the others become the list, in order |
| `MemoryAllocator.Allocator.LinkLoop` | netcwmp_xo/libcwmp/src/memory.c:235-249 | the loop links the blocks in order |
| `MemoryAllocator.Allocator.Allocate` | netcwmp_xo/libcwmp/src/memory.c:256-287 | the head of the list of the rounded size, or the answer of malloc above 128 bytes, or else what a refill cuts off: exactly one live block more, of the rounded size; the memory of the others stays |
| `MemoryAllocator.Allocator.Deallocate` | netcwmp_xo/libcwmp/src/memory.c:293-316 | exactly one live block less; it is the first of the list of its size, in front of what was there, or goes back to malloc above 128 bytes |
| `MemoryAllocator.Allocator.Reallocate` | netcwmp_xo/libcwmp/src/memory.c:322-337 | the words both sizes have room for are kept; no other live block is moved or changed in a word |
| `MemoryAllocator.Allocator.Move` | netcwmp_xo/libcwmp/src/memory.c:326-329 | realloc of a block that malloc gave: the same, for the region that malloc answers |
| `MemoryAllocator.Allocator.CopyToNew` | netcwmp_xo/libcwmp/src/memory.c:332-336 | a new block, the copy, and the old one given back: the same |
| `MemoryAllocator.Allocator.Write` | netcwmp_xo/libcwmp/src/memory.c:256-287 | a store by the owner |
| `MemoryAllocator.Allocator.GrowFirst` | netcwmp_xo/libcwmp/src/memory.c:182-214 | an arena too short for one block: the blocks come from the start of what malloc gives |
| `MemoryAllocator.Allocator.GiveAgain` | netcwmp_xo/libcwmp/src/memory.c:256-316 | a block given back is what the next request of its size is given, and all is as it was |
| `MemoryAllocator.Allocator.ExactFit` | netcwmp_xo/libcwmp/src/memory.c:182-214 | an arena of exactly one block is not used for it: its rest goes on the list of that size, which the refill then overwrites |
| `MemoryAllocator.Allocator.CopyInto` | netcwmp_xo/libcwmp/src/memory.c:332-336 | the words both sizes have room for, and the old block given back |
| `MemoryAllocator.GrowthIs` | netcwmp_xo/libcwmp/src/memory.c:184 | what is asked of malloc is twice the blocks wanted and a sixteenth of all asked before, rounded up to 8; at first it is twenty blocks |
| `Pool.PieceIsSafe` | netcwmp_xo/libcwmp/src/pool/pool.c:217-349 | whatever has been given is aligned, in bounds of a region still held, and disjoint from everything else given |
| `Pool.TakenSound` | netcwmp_xo/libcwmp/src/pool/pool.c:217-248 | bytes taken from a block overlap nothing given before |
| `Pool.GrownSound` | netcwmp_xo/libcwmp/src/pool/pool.c:284-321 | a new region becomes the last block |
| `Pool.EnlargedSound` | netcwmp_xo/libcwmp/src/pool/pool.c:324-349 | a new region becomes a large allocation, held once |
| `Pool.FreedSound` | netcwmp_xo/libcwmp/src/pool/pool.c:381-398 | a large allocation given back takes its pieces with it and nothing else |
| `Pool.AlignWord` | netcwmp_xo/libcwmp/src/pool/pool.c:14 | rounding up wraps to zero for the seven largest requests, and for no other |
| `Pool.SizeSuits` | netcwmp_xo/libcwmp/src/pool/pool.c:78-108 | the header fits and the cell of a large allocation is no large allocation itself, if and only if the size is 88 or more; from 72 bytes on the header fits |
| `Pool.Arena.constructor` | netcwmp_xo/libcwmp/src/pool/pool.c:78-108 | one block, nothing given, for every size that holds the header |
| `Pool.Arena.Create` | netcwmp_xo/libcwmp/src/pool/pool.c:78-108 | no pool exactly when malloc refuses |
| `Pool.Arena.TakeFrom` | netcwmp_xo/libcwmp/src/pool/pool.c:228-238 | the piece is aligned, new and of the size asked |
| `Pool.Arena.FindRoom` | netcwmp_xo/libcwmp/src/pool/pool.c:224-241 | the first block with room, from the one searched first on, or none |
| `Pool.Arena.PallocSmall` | netcwmp_xo/libcwmp/src/pool/pool.c:217-246 | first fit over the blocks, and a new block only when none has room |
| `Pool.Arena.FindTail` | netcwmp_xo/libcwmp/src/pool/pool.c:306-314 | the walk ends at the last block; the block searched first next time is the one behind the last block but the tail with less than 8 bytes left, or else the one searched first so far |
| `Pool.Arena.AddBlock` | netcwmp_xo/libcwmp/src/pool/pool.c:284-321 | the new block is appended at the tail |
| `Pool.Arena.PallocBlock` | netcwmp_xo/libcwmp/src/pool/pool.c:284-321 | null exactly when malloc fails; otherwise the piece lies behind the 24 bytes of header of the new last block, and the search next time begins where FindTail says |
| `Pool.Arena.PallocLarge` | netcwmp_xo/libcwmp/src/pool/pool.c:324-349 | the region is the malloc answer and its cell a piece of the pool; in a pool of less than 88 bytes it asks malloc again and again, comes back if and only if malloc refuses, and then with null and the pool as it was |
| `Pool.Arena.Palloc` | netcwmp_xo/libcwmp/src/pool/pool.c:217-248 | first fit: the piece begins where the first block with room, from the one searched first on, ends so far, and no other block changes; only when none has room it is in a new block. It is aligned and overlaps nothing, and everything given before is kept; null only when malloc failed; the seven largest requests get an address without bytes; from a pool of less than 88 bytes a large request comes back if and only if malloc refuses, with null |
| `Pool.Arena.Pfree` | netcwmp_xo/libcwmp/src/pool/pool.c:381-398 | a large allocation goes back once; anything else is refused and changes nothing |
| `Pool.Arena.FreeLarges` | netcwmp_xo/libcwmp/src/pool/pool.c:186-193 | every large allocation still held goes back, once |
| `Pool.Arena.FreeBlocks` | netcwmp_xo/libcwmp/src/pool/pool.c:195-204 | every block from a place on goes back, once |
| `Pool.Arena.Clear` | netcwmp_xo/libcwmp/src/pool/pool.c:170-214 | all goes back but the first block, which is empty again |
| `Pool.Arena.Destroy` | netcwmp_xo/libcwmp/src/pool/pool.c:111-168 | malloc has got back everything it gave |
| `Pool.CutsExactly` | netcwmp_xo/libcwmp/src/pool/pool.c:100-104 | a request is cut from a block if and only if, rounded up, it is at most 72 bytes less than the size of the pool, and at most 524280 bytes |
| `Chunk.StrncpyIs` | netcwmp_xo/libcwmp/src/buffer.c:345 | strncpy is a plain copy if and only if nothing but NULs follows the first NUL |
| `Chunk.CopiedIsPrefix` | netcwmp_xo/libcwmp/src/buffer.c:332-354 | the copy is the beginning of the contents if and only if every copied part is clean in that sense |
| `Chunk.NulFreeIsClean` | netcwmp_xo/libcwmp/src/buffer.c:332-354 | contents without NUL are copied as they are |
| `Chunk.StrncpyParts` | netcwmp_xo/libcwmp/src/buffer.c:345 | strncpy copies up to the first NUL and fills up with NULs |
| `Chunk.Buffer.WriteBytes` | netcwmp_xo/libcwmp/src/buffer.c:116-123 | all of the bytes are appended, or none when they do not fit |
| `Chunk.Buffer.Clear` | netcwmp_xo/libcwmp/src/buffer.c:17-30 | empty and the end of its chain |
| `Chunk.Rope.constructor` | netcwmp_xo/libcwmp/src/buffer.c:221-245 | an empty chunk |
| `Chunk.Rope.Length` | netcwmp_xo/libcwmp/src/buffer.c:99-102 | the number of bytes written |
| `Chunk.Rope.Reuse` | netcwmp_xo/libcwmp/src/buffer.c:275-279 | the buffer behind is emptied and reused; the contents stay |
| `Chunk.Rope.Extend` | netcwmp_xo/libcwmp/src/buffer.c:280-296 | a new buffer behind the last; the contents stay |
| `Chunk.Rope.WriteString` | netcwmp_xo/libcwmp/src/buffer.c:261-329 | the contents gain what fits in the buffers the pool still gives, and it is an error exactly when that is not all; the count comes back as an int |
| `Chunk.ResultTells` | netcwmp_xo/libcwmp/src/buffer.c:261-329 | for less than 2^31 bytes the result says whether all was written; for 2^32 - 1 bytes it is that of an error although all was |
| `Chunk.Rope.CopyTo` | netcwmp_xo/libcwmp/src/buffer.c:332-354 | min(max, total) bytes, a NUL, and nothing behind it; without NULs in the contents exactly their beginning |
| `XmlBuffer.UnescapeEscape` | netcwmp_xo/libcwmp/src/xmlet/xmlet.c:40-110 | the escape reads back as its input and holds no raw markup character |
| `XmlBuffer.EscapeExactly` | netcwmp_xo/libcwmp/src/xmlet/xmlet.c:40-110 | the escapes are exactly the texts without raw markup that read back |
| `XmlBuffer.KeptAll` | netcwmp_xo/libcwmp/src/xmlet/xmlet.c:40-110 | with all memory granted nothing is dropped if and only if the buffer has less than 2^31 bytes before the last character |
| `XmlBuffer.AppendsBehind` | netcwmp_xo/libcwmp/src/xmlet/buffer.c:224-259 | an append goes to the end of a buffer of less than 2^31 bytes and is refused up to 2^32 |
| `XmlBuffer.EscapedIsKept` | netcwmp_xo/libcwmp/src/xmlet/xmlet.c:40-110 | the output is the escapes, one behind the other, of the characters that were not refused |
| `XmlBuffer.Predefined` | netcwmp_xo/libcwmp/src/xmlet/xmlet.c:60-108 | the five characters of markup have the names of section 4.6 of XML 1.0; every other character is its own escape |
| `XmlBuffer.EscapedOne` | netcwmp_xo/libcwmp/src/xmlet/xmlet.c:60-108 | one character appends its escape, or nothing when that is refused |
| `XmlBuffer.EscapedInParts` | netcwmp_xo/libcwmp/src/xmlet/xmlet.c:40-110 | escaping two strings one after the other is escaping their concatenation |
| `XmlBuffer.Grows` | netcwmp_xo/libcwmp/src/xmlet/buffer.c:52-115 | no growth when there is room; otherwise by 4096 bytes or what is needed, whichever is more, or by exactly what is needed when malloc refuses that; an error only when both are refused |
| `XmlBuffer.Buffer.constructor` | netcwmp_xo/libcwmp/src/xmlet/buffer.c:122-131 | an empty buffer |
| `XmlBuffer.Buffer.SetSize` | netcwmp_xo/libcwmp/src/xmlet/buffer.c:52-115 | room for the bytes and a NUL with the contents kept, or an error and no change |
| `XmlBuffer.Buffer.Insert` | netcwmp_xo/libcwmp/src/xmlet/buffer.c:266-305 | insertion into the sequence, with capacity above length and a trailing NUL; on any error no change; the index is compared with the length as an int |
| `XmlBuffer.Buffer.Append` | netcwmp_xo/libcwmp/src/xmlet/buffer.c:224-259 | insertion where the length as an int points: the end below 2^31 bytes, an error from there to 2^32 |
| `XmlBuffer.Buffer.CopyWithEscape` | netcwmp_xo/libcwmp/src/xmlet/xmlet.c:40-110 | the escape of exactly the characters that the loop sees and that were not refused is appended |

## Left out

- Mpool.Pool.GetSpace: for the requests that a new block does not cover (TooSmall), the state of the pool and the bytes of the live extents afterwards, which the contract does not promise to be valid or kept. When the size has wrapped to 0 or 8, the search of the lists and the address that comes back are left open too: the code may read a record where none was written.
- Mpool.Pool.AllocMem: the same, and what the stray fence overwrites.
- Mpool.Pool.Alloc: the same.
- Mpool.Pool.Calloc: the same, and what clearing does to the memory behind such a block; the method ends there.
- Mpool.Pool.Resize: the same, and what copying does to it.
- mpool: opening with its flags for packing and mapping, sbrk and mmap themselves, closing, logging, statistics across a clear, the pointers to the lowest and highest address; the kernel's answer is a parameter.
- getopt: long options beyond the abbreviation search, error printing, the flags shared with the C library; POSIX ordering is covered.
- cJSON: numbers that are not 32-bit integers, malformed `\u` escapes and texts that end inside an escape are an outcome of their own; failing allocation, the allocation hooks and lengths beyond an int; the child list is a sequence.
- Ini.Directory.Puts: what is read of a file that is truncated because it is its own temporary file; it is removed in the end. Another file of the temporary name is overwritten and removed.
- INI: enumeration by index (ini_get_section, ini_get_key), failing files, NUL bytes; the laws are for files whose lines fit the line buffer and for names and values without the characters that end them.
- DOM: cloning, attributes, printing and parsing.
- Md5.Context.Update: what the loop reads behind the input once its bound has wrapped; the method ends there and says so.
- MD5: targets on which UINT4 has more than 32 bits, where the code computes something else; digest authentication.
- Agent: sockets, message contents, time and tasks between sessions; whether a call succeeds, what the ACS sends and whether another connection is asked for are parameters.
- Hashtab: destruction, failing allocation and a missing table; `Hashtab.Map` takes `apply` as a function of the entry.
- Memory: the failure of malloc, requests of zero bytes, and leaks: a refill may overwrite a list that has just received the rest of the arena, and those blocks are lost.
- Pool: cleanup handlers, unaligned and page-aligned allocation, prealloc.
- Pool.Arena.constructor: pools of less than 72 bytes, because the code writes their header behind the end; `Pool.Arena.Create` is the whole of pool_create.
- Pool.Arena.Create: pools of less than 72 bytes, for the same reason.
- Pool.Arena.PallocLarge: the stack, which the recursion in a pool of less than 88 bytes may use up before malloc refuses.
- Chunk: the readers of a single buffer, formatted writes, and printing to the log.
- XmlBuffer: assignment of a whole buffer and freeing; the recursive tree printers.
- libxml2, OpenSSL, the event queue, the message builders and the configuration reader are not part of this model.
