# A verified model of the DFIS-BP cores

DFIS-BP switches messages between products, servers and processes. This project models the parts of it that
decide something hard, follows their code branch by branch, and proves what they are for:

- the slab and page allocator of the shared-memory pools (`Slab*.dfy`, `Words.dfy`);
- DES and triple DES with their key schedules and buffer functions (`Des*.dfy`, `Bytes.dfy`), and the proof that the code computes
  the cipher of FIPS 46-3 (`DesStandard.dfy`, `DesBits.dfy`, `DesBlocks.dfy`, `DesMixing.dfy`, `DesConforms.dfy`, `DesAnswer.dfy`);
- streaming MD5 (`Md5Block.dfy`, `Md5.dfy`), with the laws and suite values of RFC 1321 (`Md5Suite.dfy`);
- the reader/writer locks on counting semaphores with `SEM_UNDO` (`Sem.dfy`), and the hand-over of jobs from a select
  loop to worker threads (`Handoff.dfy`), both as steps that interleave freely;
- the choice of the process for a message, with registration and the layout of the process table (`Dispatch.dfy`), and the
  stack that leads responses back (`Route.dfy`);
- the memory pool (`Arena.dfy`), the sorted list (`Plist.dfy`) and the chained hash (`Hash.dfy`).

`dafny verify dfyconfig.toml` checks everything.

How the model reads the code:

- **Slab pool.** Pointers to page descriptors are indices into one table: the pages first, then the free-list sentinel, then the
  slots. The two tag bits that the code packs into `prev` are a field of their own. The words at the front of a page are
  modelled while they are a bitmap. `hd`, `fl` and `sl` are ghost: the head of each page's run, the free list, the slot
  lists. The `prev` fields of sentinels are never read by the code and nothing is claimed of them. The page size is any for
  which the shift on line 368 of `dfs_slab.c` fits an `int`; `BitmapShiftFits` says which those are. `min_shift` is 3, as
  `dfs_spool.c` sets it.
- **DES.** A block is the pair of words X and Y. The proofs about rounds hold for any way of mixing a half with a subkey,
  those about a round for S-boxes of any contents; the tables of the code come in last. The code's `unsigned long` may be
  wider than 32 bits, but every value it keeps is below 2^32 or masked where it matters, so 32-bit words are exact.
  `DesStandard.dfy` states the standard on its own, on strings of bits and with the tables as it prints them; nothing there refers
  to the code. `DesBits.dfy` says for every shift, mask and table of the code which bit goes where, and `CipherConforms` that both
  ciphers agree for every key and block.
- **MD5.** The context carries, as ghost state, the bytes it was given. The bit counter is two 32-bit words with an explicit
  carry. The guard `i + 63 < inputLen` is taken in 32 bits; `StaysInsideIff` says exactly when it does not wrap. `Md5Suite.dfy`
  fixes the step function apart from its definition: the auxiliary functions bit by bit, the 64 rows of the table, and the digests
  of two messages of the suite.
- **Locks and threads.** One state holds all processes or threads; one step is one system call or one shared access. A process
  may die at any step. A condition variable may wake its worker without a signal. Besides what no run can do wrong, the lemmas say
  what a step does and when it can be taken: `RunReadLock`, `RunWriteLock`, `RunRestores`, `BackToWait`, `AnyJobs`.
- **Allocation failures** of the list, the hash and the pool are parameters of the methods (`mem`, `room`), as are the answers of
  the process table in routing (`first`, `later`), the liveness of processes in dispatching (`live`) and whether a lock number is left
  for a new group (`newId`).

Where the code does less than one would expect, the model keeps the code and a lemma says so:

- `Pool.Free`, `OwnGiven`: a pointer to a chunk that the bitmap of a small-chunk page itself takes up passes all checks of
  `dfs_slab_free_locked`, and clearing its bit leaves tables that are not sound; every pool of pages of 1 KiB and more can get there (`Harm`). The method says for every pointer into the pages
  that the tables stay sound if and only if it is no such pointer; `LiveNotOwn` shows that no live pointer is one. A pointer to the
  head of a free run passes the checks too (`PageChecks`), and is harmless: the run is listed anew (`RelistedOk`).
- `BitmapShiftFits`: on pages of 16 KiB and more line 368 of `dfs_slab.c` shifts beyond an `int`.
- `StaysInsideIff`, `UnsafeLength`: one `MD5Update` call of 2^32 - 1 bytes after 63 bytes reads past its input.
- `Arena.StaysInsideIff`: created with any size, a memory pool keeps every piece in its block in all runs of requests if and only if
  the size holds the pool's head and is a multiple of 8, or nothing but empty pieces can be asked for. The room is compared as an
  unsigned number, so elsewhere a request made at the end of a block (`BehindTheEnd`), or the first request of a pool smaller than
  its head (`BelowTheHead`), gets a piece behind the block's end. The pieces share no byte even then (`RunSound`).
- `LastNumberRefused`, `NumbersGiven`: the last number that `dfs_lock_newid` gives out is no lock; the lock and unlock functions
  refuse it, and for every semnum a run gives it out.
- `InterruptedNumbers`, `InterruptedExcludes`: `dfs_lock_newid` goes on without the lock when its lock call fails. Wherever there are
  two locks and two processes, one such call is enough to give out a number twice and to make lock 1 exclusive no more; without
  any, or with a process that is alone, numbers differ in all runs, and every lock but lock 1 stays exclusive in all runs.
- `SafeStart`: workers handle every job once in all runs if and only if each starts between the IDLE store of its loop and the end
  of the wait; a worker whose status is IDLE before that can lose a job.
- `ResponseRestores`: a response that is itself marked to be stored and finds a process leaves a frame behind.
- `CopyFits`: a hash table's copy of a key can be compared with every key without reading past it if and only if the key fits the
  key size with its terminator.
- `Plist.Search`, `Plist.Dup`: without memory for the iterator the code follows a null pointer.
- `Head.Alloc`: a new group that fits but gets no lock number stays in the table uncounted, and the table stays locked.

## Model

| member | source | states |
|---|---|---|
| `SlabTable.ChainUnlink` | v3.3/src/comm/dfs_slab.c:248-250 | Unlinking a member of a circular list leaves that list without it, linked both ways |
| `SlabTable.ChainUnlinkElsewhere` | v3.3/src/comm/dfs_slab.c:248-250 | Lists of other sentinels that share no node with it are linked as before |
| `SlabTable.ChainPush` | v3.3/src/comm/dfs_slab.c:512-516 | Linking a node behind the sentinel gives the list with the node in front |
| `SlabTable.ChainReplace` | v3.3/src/comm/dfs_slab.c:697-703 | Putting the rest of a split run in the place of the run keeps the circular list with that one member exchanged |
| `SlabRuns.HeadOfHead` | v3.3/src/comm/dfs_slab.c:739-823 | The head of a run is its own head |
| `SlabRuns.SpanInOneRun` | v3.3/src/comm/dfs_slab.c:689-736 | Contiguous free pages always belong to one free run, because no two free runs are adjacent |
| `SlabRuns.WholePoolFree` | v3.3/src/comm/dfs_slab.c:739-823 | When no page is in use, one free run covers the whole pool and the free list holds just it |
| `SlabRuns.CarveTiled` | v3.3/src/comm/dfs_slab.c:693-715 | Splitting a run into a taken front and a free rest keeps the page table tiled by runs, no two free ones adjacent |
| `SlabRuns.MergeTiled` | v3.3/src/comm/dfs_slab.c:758-810 | Joining two neighbouring runs keeps the page table tiled |
| `SlabRuns.DetachTiled` | v3.3/src/comm/dfs_slab.c:744-756 | A run being given back, neither listed nor in use yet, keeps the tiling, whether it was busy or free before |
| `SlabRuns.AttachTiled` | v3.3/src/comm/dfs_slab.c:812-822 | Listing a run without free neighbours restores the full invariant, back pointer of its last page included |
| `SlabMoves.TakenRuns` | v3.3/src/comm/dfs_slab.c:691-731 | Taking pages from the front of a listed run keeps tiling and free list, for a split and for an exact fit |
| `SlabMoves.TakenAllots` | v3.3/src/comm/dfs_slab.c:691-731 | Taking pages from the front of a listed run turns exactly those pages into one busy run; every other page keeps its use |
| `SlabMoves.NoSpan` | v3.3/src/comm/dfs_slab.c:689-736 | When no listed run is long enough there are nowhere that many contiguous free pages |
| `SlabMoves.RightNeighbour` | v3.3/src/comm/dfs_slab.c:758-768 | The descriptor behind a run being given back is always the head of the next run, so the test looks at the right word |
| `SlabMoves.LeftNeighbour` | v3.3/src/comm/dfs_slab.c:782-794 | The page before a freed run leads, through its back pointer, to the head of the free run it ends, if it is free |
| `SlabMoves.JoinedOk` | v3.3/src/comm/dfs_slab.c:766-779 | Joining a freed run with a listed neighbour takes the neighbour off the list and keeps the invariant |
| `SlabMoves.ListedOk` | v3.3/src/comm/dfs_slab.c:812-822 | The joined run goes to the front of the free list |
| `SlabMoves.ReleaseSteps` | v3.3/src/comm/dfs_slab.c:739-823 | The steps of giving a run back together free exactly its pages and leave every other page in its use |
| `SlabMoves.FreeWithdrawn` | v3.3/src/comm/dfs_slab.c:744-756 | A free run that is given back once more leaves the free list and is in limbo like a busy one, every other page as it was |
| `SlabChunks.BitmapShiftFits` | v3.3/src/comm/dfs_slab.c:361-368 | The shift that makes a new bitmap fits an int on pages of up to 8 KiB and on no larger ones |
| `SlabChunks.SmallGeometry` | v3.3/src/comm/dfs_slab.c:218-254 | A small-chunk page: the bitmap has a bit for each chunk and fits in the chunks set aside for it |
| `SlabChunks.BigGeometry` | v3.3/src/comm/dfs_slab.c:307-350 | A big-chunk page has between 2 and 32 chunks, whose bits fit the upper half of the word |
| `SlabChunks.MarkedUsed` | v3.3/src/comm/dfs_slab.c:226-235 | Setting or clearing a chunk bit changes the use of that chunk and of no other, in all three layouts |
| `SlabChunks.MarkedLaid` | v3.3/src/comm/dfs_slab.c:499-531 | Setting or clearing a chunk bit keeps the page laid out: the shift in the low bits of the word, and the bits that the bitmap sets aside for itself |
| `SlabChunks.ExactFull` | v3.3/src/comm/dfs_slab.c:283-292 | The exact layout is full exactly when its word is all ones |
| `SlabChunks.ExactEmpty` | v3.3/src/comm/dfs_slab.c:574-581 | An exact page has no chunk in use exactly when its word is zero |
| `SlabChunks.BigFull` | v3.3/src/comm/dfs_slab.c:329-337 | The big layout is full exactly when the upper half is the mask |
| `SlabChunks.BigEmpty` | v3.3/src/comm/dfs_slab.c:616-623 | A big-chunk page has no chunk in use exactly when the upper half of its word is zero |
| `SlabChunks.SmallFull` | v3.3/src/comm/dfs_slab.c:236-254 | The small layout is full exactly when every word is all ones |
| `SlabChunks.SmallEmpty` | v3.3/src/comm/dfs_slab.c:521-543 | A small-chunk page has no chunk in use exactly when no bit behind the bitmap's own chunks is set, which is the test of the code |
| `SlabChunks.OwnMarked` | v3.3/src/comm/dfs_slab.c:519-540 | Clearing a chunk that the bitmap itself takes up goes unseen by the test for chunks in use, and the page is laid out no more |
| `SlabSlots.StayListed` | v3.3/src/comm/dfs_slab.c:311-345 | Marking a chunk of a page that keeps a free and a used chunk keeps all slot lists right |
| `SlabSlots.LeaveList` | v3.3/src/comm/dfs_slab.c:283-292 | A page that fills up leaves its slot list with next NULL, and the lists stay right |
| `SlabSlots.JoinList` | v3.3/src/comm/dfs_slab.c:506-517 | A full page that gives a chunk back joins the front of its slot list |
| `SlabSlots.StartList` | v3.3/src/comm/dfs_slab.c:377-381 | A new slab page becomes the only page of its slot list |
| `SlabSlots.DropPage` | v3.3/src/comm/dfs_slab.c:543-545 | A page handed back to the page allocator leaves its slot list |
| `SlabBlocks.InitOk` | v3.3/src/comm/dfs_slab.c:110-144 | The table made at the start is right: one free run, empty slots, the back pointer of the last page unset |
| `SlabBlocks.TookOk` | v3.3/src/comm/dfs_slab.c:211-350 | Taking a chunk makes exactly one block live and keeps both layers of the invariant, whether the page fills up or not |
| `SlabBlocks.StartedOk` | v3.3/src/comm/dfs_slab.c:353-416 | Setting up a new slab page keeps both layers of the invariant |
| `SlabBlocks.GaveUsed` | v3.3/src/comm/dfs_slab.c:504-546 | Giving a chunk back to a page that stays in use ends exactly one live block, relinking a page that was full |
| `SlabBlocks.GaveLast` | v3.3/src/comm/dfs_slab.c:543-545 | Giving back the last chunk ends exactly that block and frees its page |
| `SlabBlocks.AllottedOk` | v3.3/src/comm/dfs_slab.c:171-188 | A page run handed out is one new live block and keeps both layers |
| `SlabBlocks.ReleasedOk` | v3.3/src/comm/dfs_slab.c:649-652 | Freeing a page run ends exactly its live block and keeps both layers |
| `SlabBlocks.RelistedOk` | v3.3/src/comm/dfs_slab.c:649-652 | Giving back a run that was free already changes no block |
| `SlabBlocks.OwnGiven` | v3.3/src/comm/dfs_slab.c:489-547 | Giving back a chunk that a bitmap itself takes up leaves tables that no run heads, free list and slot lists make sound |
| `SlabBlocks.LiveFacts` | v3.3/src/comm/dfs_slab.c:486-657 | What the type and words of a page say about each of its live blocks |
| `SlabBlocks.PageChecks` | v3.3/src/comm/dfs_slab.c:637-647 | The two checks on a page run refuse exactly the pages inside a run; a page passes and starts a live block exactly when it is not the head of a free run |
| `SlabGeometry.BlocksApart` | v3.3/src/comm/dfs_slab.c:164-425 | In every right table two live blocks share no byte |
| `SlabGeometry.BlockInPages` | v3.3/src/comm/dfs_slab.c:164-425 | A live block lies in the pages it was cut from, behind the bitmap of a small-chunk page |
| `SlabGeometry.BlockAligned` | v3.3/src/comm/dfs_slab.c:164-425 | A chunk is aligned to its size |
| `SlabGeometry.ChunkOfAddr` | v3.3/src/comm/dfs_slab.c:481-508 | The shifts and masks of a free find the page and chunk of an address |
| `SlabPool.Pool.Layout` | v3.3/src/comm/dfs_slab.c:105-144 | The pages start less than a page behind the slots and as many descriptors as could have a page each, aligned and behind their descriptors; as many as fit are made, and one more does not fit |
| `SlabPool.Pool.constructor` | v3.3/src/comm/dfs_slab.c:103-148 | dfs_slab_init makes a valid pool of one free run and no live block, with as many pages as fit into the area and no fewer |
| `SlabPool.Pool.TakeFrom` | v3.3/src/comm/dfs_slab.c:691-731 | A listed run that is long enough gives its front pages |
| `SlabPool.Pool.AllocPages` | v3.3/src/comm/dfs_slab.c:685-737 | dfs_slab_alloc_pages fails exactly when no so many contiguous free pages exist anywhere, changing nothing then |
| `SlabPool.Pool.JoinRight` | v3.3/src/comm/dfs_slab.c:758-780 | A freed run is joined with the free run behind it, and is then followed by none |
| `SlabPool.Pool.JoinLeft` | v3.3/src/comm/dfs_slab.c:782-810 | A freed run is joined with the free run before it, found through the back pointer, and then has no free neighbour at all |
| `SlabPool.Pool.ListRun` | v3.3/src/comm/dfs_slab.c:812-822 | The run goes to the front of the free list, its last page pointing back at it |
| `SlabPool.Pool.FreePages` | v3.3/src/comm/dfs_slab.c:739-823 | dfs_slab_free_pages makes exactly the given pages free, with no two free runs adjacent; a run that was free is listed anew |
| `SlabPool.Pool.JoinAndList` | v3.3/src/comm/dfs_slab.c:758-822 | The cleared run is joined with its free neighbours and listed, and exactly its pages become free |
| `SlabPool.Pool.FirstClear` | v3.3/src/comm/dfs_slab.c:224-229 | The bit search finds the first clear bit |
| `SlabPool.Pool.TakeSmall` | v3.3/src/comm/dfs_slab.c:211-266 | A chunk of a small-chunk page is taken through the bitmap in the page; a page that fills up leaves its slot |
| `SlabPool.Pool.TakeExact` | v3.3/src/comm/dfs_slab.c:268-306 | A chunk of an exact page is taken through the descriptor word; a page that fills up leaves its slot |
| `SlabPool.Pool.TakeBig` | v3.3/src/comm/dfs_slab.c:307-350 | A chunk of a big-chunk page is taken through the upper half of the word; a page that fills up leaves its slot |
| `SlabPool.Pool.TakeChunk` | v3.3/src/comm/dfs_slab.c:211-350 | The first page of a slot that has pages always has a free chunk, so the search never steps onto the sentinel |
| `SlabPool.Pool.SetUpPage` | v3.3/src/comm/dfs_slab.c:356-415 | A fresh page becomes a slab page in which exactly its first free chunk is live |
| `SlabPool.Pool.NewSlabPage` | v3.3/src/comm/dfs_slab.c:353-416 | A page for an empty slot makes one new block live, or fails exactly when no page is free |
| `SlabPool.Pool.ShiftFor` | v3.3/src/comm/dfs_slab.c:192-193 | The loop finds the smallest power of two that holds the request |
| `SlabPool.Pool.AllocRun` | v3.3/src/comm/dfs_slab.c:171-188 | A large request gets whole pages, or fails exactly when not so many contiguous ones are free |
| `SlabPool.Pool.AllocChunk` | v3.3/src/comm/dfs_slab.c:206-418 | A small request gets a chunk, or fails exactly when its slot is empty and no page is free |
| `SlabPool.Pool.Alloc` | v3.3/src/comm/dfs_slab.c:164-425 | dfs_slab_alloc_locked makes one new block live and leaves all others alone. A request of more than half a page gets whole pages, as few as hold it, and fails exactly when so many are free nowhere side by side; a smaller one gets the least power of two from 8 on that holds it, and fails exactly when its slot is empty and no page is free |
| `SlabPool.RoundedOnce` | v3.3/src/comm/dfs_slab.c:171-188 | There is just one number of pages that holds a large request while one page less does not |
| `SlabPool.Pool.ClearSmall` | v3.3/src/comm/dfs_slab.c:489-541 | The chunk bit of a small-chunk page is cleared, a full page relinked first, and the answer says whether a chunk is left |
| `SlabPool.Pool.ClearExact` | v3.3/src/comm/dfs_slab.c:550-579 | The chunk bit of an exact page is cleared, a full page relinked first, and the answer says whether a chunk is left |
| `SlabPool.Pool.ClearBig` | v3.3/src/comm/dfs_slab.c:588-621 | The chunk bit of a big-chunk page is cleared, a full page relinked first, and the answer says whether a chunk is left |
| `SlabPool.Pool.Give` | v3.3/src/comm/dfs_slab.c:489-628 | Giving back a chunk in use ends exactly its block, or, for a chunk of the bitmap itself, spoils the tables as OwnGiven says |
| `SlabPool.Pool.GiveRun` | v3.3/src/comm/dfs_slab.c:649-652 | Giving back a page run, busy or free, ends its block if it has one and no other |
| `SlabPool.Pool.FreeChunk` | v3.3/src/comm/dfs_slab.c:489-628 | A pointer into a slab page: refused unless a chunk in use starts there; a live chunk ends and no other, a chunk of the bitmap itself spoils the tables |
| `SlabPool.Pool.FreeRun` | v3.3/src/comm/dfs_slab.c:630-656 | A pointer to other pages: refused unless a run starts there; a live run ends and no other, a free run is only listed anew |
| `SlabPool.Pool.Free` | v3.3/src/comm/dfs_slab.c:466-682 | dfs_slab_free_locked leaves sound tables if and only if the pointer is at no chunk that a bitmap itself takes up; then the block at the pointer ends, if one is live there, and nothing else changes |
| `SlabClient.LiveBlocksApart` | v3.3/src/comm/dfs_slab.c:164-425 | Any two live blocks of a valid pool are the same or share no byte |
| `SlabClient.LiveBlockInside` | v3.3/src/comm/dfs_slab.c:164-425 | Every live block lies in the pool and clear of the bitmap of its page |
| `SlabClient.LiveBlockAligned` | v3.3/src/comm/dfs_slab.c:164-425 | Every live chunk is aligned to its size, every live run to the page size |
| `SlabClient.LiveNotOwn` | v3.3/src/comm/dfs_slab.c:475-657 | A live pointer lies in the pages and is at no chunk that a bitmap itself takes up, so freeing it keeps the pool sound |
| `SlabClient.AllFreed` | v3.3/src/comm/dfs_slab.c:739-823 | When nothing is live, one free run covers the pool and every slot is empty |
| `SlabClient.Run` | v3.3/src/comm/dfs_slab.c:164-682 | Over any sequence of allocations and frees of held pointers, the held pointers are exactly those of the live blocks, each once, and every block has at least the size asked for |
| `SlabClient.Harm` | v3.3/src/comm/dfs_slab.c:164-547 | Every pool of pages of 1 KiB and more comes to harm: after its first small allocation, freeing the address of the page leaves tables that no lists make sound |
| `DesCipher.FpOfIp` | v3.3/src/core/des3.c:246-269 | The final permutation undoes the initial one |
| `DesCipher.IpOfFp` | v3.3/src/core/des3.c:246-269 | The initial permutation undoes the final one |
| `DesCipher.RoundsConcat` | v3.3/src/core/des3.c:382-391 | Rounds over a joined schedule are the rounds over its parts in turn |
| `DesCipher.RoundsInverse` | v3.3/src/core/des3.c:274-287 | Rounds with the reversed schedule, on swapped halves, lead back, for any mixing function |
| `DesCipher.ReversedAt` | v3.3/src/core/des3.c:367-371 | Where the words of a pairwise reversed schedule come from |
| `DesCipher.ReversedTwice` | v3.3/src/core/des3.c:367-371 | Reversing a schedule twice gives it back |
| `DesCipher.CryptInverse` | v3.3/src/core/des3.c:374-418 | Decryption undoes encryption and encryption undoes decryption, for every schedule |
| `DesCipher.Crypt3IsThreeCrypts` | v3.3/src/core/des3.c:523-565 | The fused 48 rounds are three DES operations on the three parts of the schedule |
| `DesCipher.Crypt3Inverse` | v3.3/src/core/des3.c:523-585 | Triple DES with the reversed schedule undoes triple DES, both ways |
| `DesCipher.RoundsNot` | v3.3/src/core/des3.c:274-287 | Inverting subkeys and halves inverts the result of any number of rounds |
| `DesCipher.CryptNot` | v3.3/src/core/des3.c:374-398 | Inverting the subkeys and the block inverts the result of the whole cipher, permutations included |
| `DesRound.RoundMixNot` | v3.3/src/core/des3.c:274-287 | Inverting the six-bit groups of a subkey and the half leaves all S-box indices, so the mix, as it was |
| `DesKeys.LeftTable` | v3.3/src/core/des3.c:227-233 | The left PC-1 table: opposite indices select words that differ in exactly the spread bits |
| `DesKeys.RightTable` | v3.3/src/core/des3.c:235-241 | The right PC-1 table: opposite indices select words that differ in exactly the spread bits |
| `DesKeys.Pc1Not` | v3.3/src/core/des3.c:297-315 | Permuted choice 1 of the inverted key is the inverse in all 28 bits of both halves |
| `DesKeys.HalvesNot` | v3.3/src/core/des3.c:320-332 | The halves of the inverted key are the inverses of those of the key after the rotations of any number of rounds |
| `DesKeys.SubkeysOfNot` | v3.3/src/core/des3.c:334-356 | The two subkey words of inverted halves differ exactly in 0x3F3F3F3F |
| `DesKeys.KeyScheduleNot` | v3.3/src/core/des3.c:289-356 | Inverting the key inverts exactly the six-bit groups of all 32 subkey words |
| `DesModes.PairOfBytes` | v3.3/src/core/des3.c:41-60 | Reading a block written big-endian gives the words back |
| `DesModes.BytesOfPair` | v3.3/src/core/des3.c:41-60 | Writing the words read from a block gives the block back |
| `DesModes.ChainedConcat` | v3.3/src/core/des3.c:423-443 | One CBC encryption over a concatenation is two calls chained through the vector |
| `DesModes.UnchainedConcat` | v3.3/src/core/des3.c:448-471 | One CBC decryption over a concatenation is two calls chained through the vector |
| `DesModes.UnchainedChained` | v3.3/src/core/des3.c:423-471 | CBC decryption undoes CBC encryption for any inverse pair of block ciphers |
| `DesModes.ChainedUnchained` | v3.3/src/core/des3.c:423-471 | CBC encryption undoes CBC decryption for any inverse pair of block ciphers |
| `DesModes.MaskedBlocks` | v3.3/src/core/des3.c:590-612 | With the vector kept, block i of the output depends on block i of the input only |
| `DesModes.UnmaskedMasked` | v3.3/src/core/des3.c:590-638 | The triple DES buffer functions round-trip |
| `DesModes.MaskedUnmasked` | v3.3/src/core/des3.c:590-638 | The triple DES buffer functions round-trip in the other order too |
| `Des.TwoKeysAsThree` | v3.3/src/core/des3.c:476-521 | The 16-byte key k1 k2 sets the schedules of the 24-byte key k1 k2 k1 |
| `Des.ThreeKeysOrder` | v3.3/src/core/des3.c:502-565 | With 24 bytes of key the first eight encrypt, the next eight decrypt and the last eight encrypt, in this order |
| `Des.TwoKeysOrder` | v3.3/src/core/des3.c:476-565 | With 16 bytes of key the first eight encrypt, the others decrypt and the first eight encrypt again |
| `Des.DesInverse` | v3.3/src/core/des3.c:400-418 | On bytes: decryption undoes encryption and the other way round |
| `Des.Des3Inverse` | v3.3/src/core/des3.c:570-585 | On bytes: triple DES decryption undoes encryption and the other way round |
| `Des.TripleIsEde` | v3.3/src/core/des3.c:523-565 | Triple DES encrypts, decrypts and encrypts with single DES |
| `Des.TripleWithOneKey` | v3.3/src/core/des3.c:523-565 | Triple DES under one key thrice is single DES |
| `Des.DesCbcInverse` | v3.3/src/core/des3.c:423-471 | DES-CBC of any whole number of blocks round-trips, for every schedule and vector |
| `Des.Des3CbcInverse` | v3.3/src/core/des3.c:590-638 | The triple DES buffer pair round-trips |
| `Des.DesComplement` | v3.3/src/core/des3.c:289-398 | Inverting every bit of key and block inverts every bit of the output |
| `Des.TripleNot` | v3.3/src/core/des3.c:523-565 | Inverting every bit of three schedules' subkey groups and of the block inverts every bit of the triple cipher's output |
| `Des.Des3Complement` | v3.3/src/core/des3.c:502-565 | Inverting every bit of a 24-byte key and the block inverts every bit of the triple DES output |
| `Des.Des3ComplementTwo` | v3.3/src/core/des3.c:476-565 | So it does for a 16-byte key |
| `Des.Round` | v3.3/src/core/des3.c:274-287 | One DES_ROUND xors the mix of the other half and two subkey words into a half |
| `Des.SixteenRounds` | v3.3/src/core/des3.c:383-390 | The sixteen rounds of a schedule |
| `DesBuffers.MainKs` | v3.3/src/core/des3.c:289-356 | The loop writes the schedule of the key to its place and nothing else |
| `DesBuffers.DesContext.SetKey` | v3.3/src/core/des3.c:361-372 | esk is the schedule of the key and dsk its pairwise reversal |
| `DesBuffers.TripleReversed` | v3.3/src/core/des3.c:476-521 | The reversed triple schedule is made of the reversed third, the plain second and the reversed first |
| `DesBuffers.Des3Context.Set2Keys` | v3.3/src/core/des3.c:476-497 | esk is k1, reversed k2, k1, and dsk is its reversal |
| `DesBuffers.Des3Context.Set3Keys` | v3.3/src/core/des3.c:502-521 | esk is k1, reversed k2, k3, and dsk is its reversal |
| `DesBuffers.DesCrypt` | v3.3/src/core/des3.c:374-398 | des_crypt writes the cipher of the eight input bytes, also when input and output overlap |
| `DesBuffers.Des3Crypt` | v3.3/src/core/des3.c:523-565 | des3_crypt writes the triple cipher |
| `DesBuffers.DesCbcEncrypt` | v3.3/src/core/des3.c:423-443 | The buffer becomes the chained encryption and iv its last block, in place or not |
| `DesBuffers.DesCbcDecrypt` | v3.3/src/core/des3.c:448-471 | The buffer becomes the chained decryption and iv the last ciphertext block, in place or not |
| `DesBuffers.Des3CbcEncrypt` | v3.3/src/core/des3.c:590-612 | The buffer becomes the blockwise encryption under the kept vector |
| `DesBuffers.Des3CbcDecrypt` | v3.3/src/core/des3.c:615-638 | The buffer becomes the blockwise decryption under the kept vector |
| `DesBuffers.DesThereAndBack` | v3.3/src/core/des3.c:423-471 | With keys set, decrypting in place what was encrypted in place with an equal vector gives the buffer back and leaves the vectors equal |
| `DesBuffers.Des3ThereAndBack` | v3.3/src/core/des3.c:590-638 | The same for triple DES with the kept vector |
| `DesBlocks.PairOfBits` | v3.3/src/core/des3.c:41-60 | The two words read from eight bytes hold the 64 bits of the block in the order of FIPS 46-3 |
| `DesBlocks.IpSelects` | v3.3/src/core/des3.c:246-255 | The bits of both halves after DES_IP, turned right by one, are those that the table IP of FIPS 46-3 selects from the block |
| `DesBlocks.Pc1Selects` | v3.3/src/core/des3.c:297-315 | The 28 bits of each half are the key bits that the table PC-1 of FIPS 46-3 names, in its order |
| `DesBlocks.HalvesFollow` | v3.3/src/core/des3.c:320-332 | After every round the halves of the code are the blocks C and D of FIPS 46-3 after as many iterations |
| `DesBlocks.HalvesTurn` | v3.3/src/core/des3.c:320-332 | The halves of round n are those of the key turned left by 1, 2, 4, 6, 8, 10, 12, 14, 15, 17, 19, 21, 23, 25, 27 and 28 places |
| `DesBlocks.HalvesComeBack` | v3.3/src/core/des3.c:320-332 | After all sixteen rounds the halves are those of the key again |
| `DesBlocks.SubkeysFollow` | v3.3/src/core/des3.c:334-356 | The six-bit groups of the two subkey words of a round hold the 48 bits that PC-2 of FIPS 46-3 selects from C and D, those of the odd S-boxes in the second word |
| `DesMixing.ESelects` | v3.3/src/core/des3.c:274-287 | The six-bit groups that a round takes from a half and from the half turned by four are what the bit selection E of FIPS 46-3 gives |
| `DesMixing.LookedFits` | v3.3/src/core/des3.c:64-222 | Each entry of the eight tables of 64 words, turned right by one, is the number that the S-box of FIPS 46-3 gives for the six bits, put where P puts its four bits |
| `DesMixing.AllPlacedAt` | v3.3/src/core/des3.c:274-287 | Each bit of what a round adds is the bit of the one S-box that the table P of FIPS 46-3 names |
| `DesMixing.MixIsF` | v3.3/src/core/des3.c:274-287 | What a round adds to a half is the cipher function f of FIPS 46-3 of the other half and the key |
| `DesConforms.RoundsFollow` | v3.3/src/core/des3.c:383-390 | After every round the halves of the code are L and R of FIPS 46-3 after as many iterations |
| `DesConforms.CipherConforms` | v3.3/src/core/des3.c:289-408 | For every key and block the code computes, bit for bit, the enciphering of FIPS 46-3 as its own tables give it |
| `DesConforms.DecryptConforms` | v3.3/src/core/des3.c:361-418 | Decryption finds the block that the cipher of FIPS 46-3 takes to the given one |
| `DesConforms.TripleConforms` | v3.3/src/core/des3.c:502-565 | Triple DES enciphers with the first key, deciphers with the second and enciphers with the third in the terms of FIPS 46-3 |
| `DesAnswer.KnownAnswer` | v3.3/src/core/des3.c:289-408 | The key 133457799BBCDFF1 enciphers the block 0123456789ABCDEF to 85E813540F0AB405, followed round by round |
| `Md5Block.DecodedEncoded` | v3.3/src/admin/md5.c:279-307 | Decoding encoded words gives them back |
| `Md5Block.EncodedDecoded` | v3.3/src/admin/md5.c:279-307 | Encoding decoded bytes gives them back |
| `Md5Block.Encode` | v3.3/src/admin/md5.c:279-292 | The loop writes the words low-order byte first |
| `Md5Block.Decode` | v3.3/src/admin/md5.c:297-307 | The loop reads them so |
| `Md5Block.FF` | v3.3/src/admin/md5.c:77-81 | A line of round 1 is the step of the table of section 3.4 of RFC 1321 with its number |
| `Md5Block.GG` | v3.3/src/admin/md5.c:82-86 | A line of round 2 is the step of that table with its number |
| `Md5Block.HH` | v3.3/src/admin/md5.c:87-91 | A line of round 3 is the step of that table with its number |
| `Md5Block.II` | v3.3/src/admin/md5.c:92-96 | A line of round 4 is the step of that table with its number |
| `Md5Block.Transform` | v3.3/src/admin/md5.c:186-277 | The 64 written-out lines are the 64 steps of the table, then added to the state |
| `Md5.PadLenUnique` | v3.3/src/admin/md5.c:169-170 | The padding length is the one between 1 and 64 that leads to 56 modulo 64 |
| `Md5.FoldConcat` | v3.3/src/admin/md5.c:136-141 | Taking in blocks in two parts is taking in their concatenation |
| `Md5.CountsMore` | v3.3/src/admin/md5.c:126-130 | The counter with its carry stays the bit length modulo 2^64 |
| `Md5.CountIndex` | v3.3/src/admin/md5.c:124-124 | The low counter word tells how many bytes wait in the buffer |
| `Md5.StaysInsideIff` | v3.3/src/admin/md5.c:140-141 | The block loop reads only its input exactly when i + 63 does not wrap where it should stop |
| `Md5.SafeLengths` | v3.3/src/admin/md5.c:140-141 | The block loop keeps to its input for every length up to 2^32 - 64 |
| `Md5.UnsafeLength` | v3.3/src/admin/md5.c:140-141 | The block loop reads past its input for 2^32 - 1 bytes after 63 bytes |
| `Md5.Context.Init` | v3.3/src/admin/md5.c:100-113 | A context of the empty message |
| `Md5.Context.AddLength` | v3.3/src/admin/md5.c:126-130 | The two statements on count keep it the bit length |
| `Md5.Context.Blocks` | v3.3/src/admin/md5.c:140-141 | The loop folds all whole blocks into the state and stops behind them |
| `Md5.Context.Update` | v3.3/src/admin/md5.c:116-152 | After any update the context stands for the concatenation: state is the fold over the full blocks, the buffer the rest, count the bit length |
| `Md5.Context.Pad` | v3.3/src/admin/md5.c:164-174 | The two last updates make the message the padded one of sections 3.1 and 3.2 of RFC 1321 |
| `Md5.Context.Final` | v3.3/src/admin/md5.c:157-182 | The digest is the fold over the padded message, and the context is wiped |
| `Md5.HashPieces` | v3.3/src/admin/md5.c:100-182 | However a message is split into updates that stay inside their input, the digest is that of the message |
| `Md5.SameMessage` | v3.3/src/admin/md5.c:116-152 | Two contexts of the same bytes agree in state, count and the live part of the buffer |
| `Md5Suite.FBit` | v3.3/src/admin/md5.c:65-65 | Each bit of F is that of y where x is set and of z elsewhere, as section 3.4 of RFC 1321 wants |
| `Md5Suite.GBit` | v3.3/src/admin/md5.c:66-66 | Each bit of G is that of x where z is set and of y elsewhere |
| `Md5Suite.HBit` | v3.3/src/admin/md5.c:67-67 | Each bit of H is the parity of the three bits |
| `Md5Suite.IBit` | v3.3/src/admin/md5.c:68-68 | Each bit of I is that of y, inverted exactly where x is set or z is clear |
| `Md5Suite.Rows0` | v3.3/src/admin/md5.c:195-202 | Steps 1 to 8 take the message words, rotations and constants that RFC 1321 prints |
| `Md5Suite.Rows8` | v3.3/src/admin/md5.c:203-210 | Steps 9 to 16 take the message words, rotations and constants that RFC 1321 prints |
| `Md5Suite.Rows16` | v3.3/src/admin/md5.c:213-220 | Steps 17 to 24 take the message words, rotations and constants that RFC 1321 prints |
| `Md5Suite.Rows24` | v3.3/src/admin/md5.c:221-228 | Steps 25 to 32 take the message words, rotations and constants that RFC 1321 prints |
| `Md5Suite.Rows32` | v3.3/src/admin/md5.c:231-238 | Steps 33 to 40 take the message words, rotations and constants that RFC 1321 prints |
| `Md5Suite.Rows40` | v3.3/src/admin/md5.c:239-246 | Steps 41 to 48 take the message words, rotations and constants that RFC 1321 prints |
| `Md5Suite.Rows48` | v3.3/src/admin/md5.c:249-256 | Steps 49 to 56 take the message words, rotations and constants that RFC 1321 prints |
| `Md5Suite.Rows56` | v3.3/src/admin/md5.c:257-264 | Steps 57 to 64 take the message words, rotations and constants that RFC 1321 prints |
| `Md5Suite.EmptyDigest` | v3.3/src/admin/md5.c:100-182 | The digest of the empty message is d41d8cd98f00b204e9800998ecf8427e, as section A.5 of RFC 1321 gives it, step by step |
| `Md5Suite.AbcDigest` | v3.3/src/admin/md5.c:100-182 | The digest of "abc" is 900150983cd24fb0d6963f7d28e17f72, as section A.5 of RFC 1321 gives it, step by step |
| `Sem.Exclusive` | v3.3/src/comm/dfs_sem.c:268-374 | A process that holds a lock for writing holds it once, without reading, and nobody else holds it |
| `Sem.NextKeepsConserved` | v3.3/src/comm/dfs_sem.c:99-129 | Every step, deaths included, keeps each lock's value at 500 less what is held and each undo entry at what its process holds, unless a process gives back lock 1 that it never got |
| `Sem.UndoKeeps` | v3.3/src/comm/dfs_sem.c:99-129 | What the kernel undoes for a dead process is exactly what it held |
| `Sem.Alone` | v3.3/src/comm/dfs_sem.c:231-255 | While one process is between lock and unlock of dfs_lock_newid every other one is outside |
| `Sem.NextKeepsNumbered` | v3.3/src/comm/dfs_sem.c:231-255 | Every step but an interruption keeps the numbers given out ascending and below the counter |
| `Sem.RunNumbered` | v3.3/src/comm/dfs_sem.c:161-255 | Every state of every run from dfs_lock_init without interrupted calls keeps all of this |
| `Sem.RunConserves` | v3.3/src/comm/dfs_sem.c:161-374 | A value is 500 - readers - 500 * writers, with at most one writer and then no reader: for lock 1 in every run without interrupted calls of dfs_lock_newid, for every other lock in all runs |
| `Sem.RunExcludes` | v3.3/src/comm/dfs_sem.c:268-374 | A writer shuts all others out, in the same runs |
| `Sem.RunRestores` | v3.3/src/comm/dfs_sem.c:304-374 | In the same runs, giving a lock back right after it was taken leads back to the very state before, values, holdings and undo entries included, for readers and writers |
| `Sem.RunWriterLeaves` | v3.3/src/comm/dfs_sem.c:358-374 | When a writer gives a lock back its value is 500 and nobody holds it or has an undo entry for it |
| `Sem.RunWriteLock` | v3.3/src/comm/dfs_sem.c:340-356 | A process outside dfs_lock_newid can get a lock for writing if and only if nobody holds it |
| `Sem.RunReadLock` | v3.3/src/comm/dfs_sem.c:304-320 | A process outside dfs_lock_newid can get a lock for reading if and only if there is no writer and fewer than 500 shares are held |
| `Sem.RunNumbers` | v3.3/src/comm/dfs_sem.c:231-255 | In every run without interrupted calls the numbers given out differ, and none is 0 or 1 |
| `Sem.RunRanged` | v3.3/src/comm/dfs_sem.c:231-255 | In every run, interrupted calls included, a number given out is neither 0 nor 1 and at most semnum |
| `Sem.RunSingle` | v3.3/src/comm/dfs_sem.c:231-255 | A process that is alone gets ascending numbers in every run, interrupted or not |
| `Sem.LastNumberRefused` | v3.3/src/comm/dfs_sem.c:276-374 | The number equal to semnum is refused by the lock and unlock functions of readers and writers, and of the numbers given out it alone |
| `Sem.NumbersGiven` | v3.3/src/comm/dfs_sem.c:241-246 | For every semnum there is a run that gives out all numbers from 2 up to the refused one |
| `Sem.InterruptedNumbers` | v3.3/src/comm/dfs_sem.c:161-255 | All runs of n locks and m processes with at most k interrupted calls of dfs_lock_newid give out different numbers if and only if k is 0, n is below 2, or m is below 2 |
| `Sem.InterruptedExcludes` | v3.3/src/comm/dfs_sem.c:161-374 | All such runs keep lock i exclusive if and only if k is 0, i is not 1, n is below 2, or m is below 2 |
| `Sem.AllDead` | v3.3/src/comm/dfs_sem.c:99-129 | When all processes have died every lock is free again |
| `Handoff.WorkerStepKeeps` | v3.3/src/lsn/tcp/tcplc.c:829-841 | Every step of a worker keeps the invariant of its mailbox |
| `Handoff.HandingKeeps` | v3.3/src/lsn/tcp/tcplc.c:585-597 | Every step of the dispatcher keeps the invariant of the worker it is busy with |
| `Handoff.NextKeeps` | v3.3/src/lsn/tcp/tcplc.c:549-674 | Every step of any thread keeps the invariant of all workers |
| `Handoff.HandledOnce` | v3.3/src/lsn/tcp/tcplc.c:622-674 | In every run the jobs a worker has read are those marked for it, in order and unchanged, but for at most one that is in its buffer |
| `Handoff.BufferOwned` | v3.3/src/lsn/tcp/tcplc.c:656-664 | The dispatcher changes a worker's buffer only while it holds the mutex and the worker waits without a job |
| `Handoff.CleanBuffer` | v3.3/src/lsn/tcp/tcplc.c:658-664 | A job is always received into an empty buffer |
| `Handoff.NoLostWakeup` | v3.3/src/lsn/tcp/tcplc.c:835-838 | No worker sleeps over a marked job: the dispatcher is then about to signal |
| `Handoff.Progress` | v3.3/src/lsn/tcp/tcplc.c:834-839 | A marked job always has a step that brings it nearer to being read |
| `Handoff.NoHindrance` | v3.3/src/lsn/tcp/tcplc.c:549-674 | No step of any thread takes a marked job away or moves it farther from being read |
| `Handoff.OwnStepNearer` | v3.3/src/lsn/tcp/tcplc.c:829-841 | Every step of its own brings a worker with a marked job strictly nearer to reading it |
| `Handoff.ReadInFive` | v3.3/src/lsn/tcp/tcplc.c:549-674 | Whatever else happens in between, a marked job has been read once its worker has made five more steps |
| `Handoff.BackToWait` | v3.3/src/lsn/tcp/tcplc.c:829-838 | In every reached state a worker done with a job gets back to the wait by its own next five steps: status IDLE, buffer empty, mutex free, every marked job read, and nothing else changed |
| `Handoff.IdleInTwo` | v3.3/src/lsn/tcp/tcplc.c:829-832 | Whatever else happens in between, a worker at the end of a job has offered itself for the next one, with status IDLE and an empty buffer, once it has made two more steps |
| `Handoff.NothingReceived` | v3.3/src/lsn/tcp/tcplc.c:656-667 | When nothing is received the dispatcher leaves the worker idle, with an empty buffer and the mutex free, and goes on scanning |
| `Handoff.AnyJobs` | v3.3/src/lsn/tcp/tcplc.c:549-841 | From every safe start, for every worker and every sequence of jobs, a run exists after which the worker has handled exactly that sequence and waits for more |
| `Handoff.LostAtStart` | v3.3/src/lsn/tcp/tcplc.c:825-841 | Wherever a worker starts with status IDLE outside the wait, a run exists in which a job marked for it is lost, or read before it is marked |
| `Handoff.SafeStart` | v3.3/src/lsn/tcp/tcplc.c:825-841 | Workers that start with status IDLE handle every job once in all runs if and only if each starts between the IDLE store of its loop and the end of the wait |
| `Dispatch.RightIsUnique` | v3.3/src/core/procs.c:854-882 | There is one process at most that is the first idle, or else the lowest-indexed least loaded eligible one |
| `Dispatch.RightExists` | v3.3/src/core/procs.c:854-882 | There is such a process exactly when one is eligible |
| `Dispatch.Group.Search` | v3.3/src/core/procs.c:852-882 | The loop finds that process, or none when none is eligible, and tells whether all counts seen are beyond the limit |
| `Dispatch.Group.Lower` | v3.3/src/core/procs.c:899-907 | The loop lowers exactly the counts beyond the limit |
| `Dispatch.Group.GetDst` | v3.3/src/core/procs.c:822-911 | The right process is returned as it was before its count went up, marked busy if it was idle, and none exactly when every process is down, is a receiver of the listener, or is neither started nor leaving with a request; the whole new table is stated |
| `Dispatch.CountAfter` | v3.3/src/core/procs.c:896-908 | What a dispatch does to one count |
| `Dispatch.EvenStep` | v3.3/src/core/procs.c:852-911 | With all processes busy a dispatch keeps the counts within one of each other, across the lowering, and none passes the limit by more than two |
| `Dispatch.RunEven` | v3.3/src/core/procs.c:822-911 | Over any run with all processes busy the counts stay within one of each other, and each is its start plus its picks less one common amount |
| `Dispatch.RunFair` | v3.3/src/core/procs.c:822-911 | Processes that start level are picked equally often, but for one |
| `Dispatch.Serve` | v3.3/src/core/procs.c:822-911 | Any number of dispatches to a group in which all are eligible and busy leaves the counts within one of each other |
| `Dispatch.Group.Register` | v3.3/src/core/procs.c:243-311 | A known name keeps place and count, a new one takes the next place, only a full table refuses; names stay unique |
| `Dispatch.SharesApart` | v3.3/src/core/procs.c:213-225 | The processes of two groups never overlap, and lie within what is in use |
| `Dispatch.Head.Alloc` | v3.3/src/core/procs.c:167-241 | A new group gets the processes behind the others, or is refused exactly when it has no name or entries, processes or lock numbers run out; a known one is accepted with its own size only. The table stays locked and unsound exactly when a fitting group gets no lock number |
| `Dispatch.Head.Enter` | v3.3/src/core/procs.c:187-229 | The same for a group that is not known yet |
| `Route.Head.Add` | v3.3/src/core/pub_route.c:44-64 | Pushing fails exactly on a full stack |
| `Route.Head.DelCur` | v3.3/src/core/pub_route.c:66-83 | Popping fails exactly on an empty stack |
| `Route.Head.Recov` | v3.3/src/core/pub_route.c:85-133 | A response is turned towards the sender of the top frame, which is popped; requests pass |
| `Route.Head.SndDst` | v3.3/src/core/pub_route.c:135-232 | A send up to the push does to the stack and the command what the step function says |
| `Route.TypeChangeFits` | v3.3/src/core/pub_route.c:330-373 | No request type is turned into that of a posted request, so no response is pushed for its type |
| `Route.TypeAnswers` | v3.3/src/core/pub_route.c:330-373 | Each of the six request types is answered by the type with the next number, and every other type by itself |
| `Route.RequestGoes` | v3.3/src/core/pub_route.c:135-232 | A request goes out exactly when a process is found, nothing fails behind the push and there is room if it is stored; it carries the name of the process found or redirected to and is otherwise as it was, and what is stored names the process found |
| `Route.OthersFail` | v3.3/src/core/pub_route.c:147-151 | A message that is neither request nor response does not go out and changes nothing |
| `Route.StepBounded` | v3.3/src/core/pub_route.c:52-56 | The stack never holds more than 20 frames |
| `Route.ResponseAnswers` | v3.3/src/core/pub_route.c:163-187 | A response over one more frame turns to the product and server of that frame's request, from where that request went, with the name of the enclosing frame and the type with the next number, and carries the name of the process found or redirected to, whether it then goes out, ends everything or fails |
| `Route.ResponseRestores` | v3.3/src/core/pub_route.c:224-232 | A response restores the stack exactly when it is not itself marked to be stored, finds no process, or ends everything |
| `Route.CourseBalanced` | v3.3/src/core/pub_route.c:85-232 | Any nesting of pushed requests and their responses, with other messages in between, leaves the stack as it was and every response answers its own request, whether the messages go out or fail, as long as no response is marked to be stored |
| `Arena.FitsIsRoom` | v3.3/src/core/pub_pool.c:113-118 | In a block whose size is a multiple of the alignment the unsigned comparison means enough room |
| `Arena.CutSound` | v3.3/src/core/pub_pool.c:115-118 | Cutting a piece off the free end of a block keeps all pieces apart, whatever the size of the block |
| `Arena.Pool.constructor` | v3.3/src/core/pub_pool.c:7-29 | A pool of any size: one block, empty behind the pool's head, and the largest small request taken from a subtraction of unsigned words |
| `Arena.Pool.Clear` | v3.3/src/core/pub_pool.c:79-99 | Every block is empty behind a pool's head again and nothing is held; current and the failures stay |
| `Arena.Pool.Search` | v3.3/src/core/pub_pool.c:108-121 | The first block from current on that passes the test is cut; at most seven are looked at |
| `Arena.Pool.NewBlock` | v3.3/src/core/pub_pool.c:152-191 | A new block is linked, every block searched but the last has failed once more, and current moves behind the last of them that had failed more than four times |
| `Arena.Pool.Alloc` | v3.3/src/core/pub_pool.c:101-150 | A small request gets a new piece of the size asked for, aligned when asked for, cut off the first block from current on that has room; a new block is linked exactly when none has and memory can be had, and without memory nothing changes |
| `Arena.RunSound` | v3.3/src/core/pub_pool.c:101-191 | In every run on a pool of any size the pieces share no byte, the chain from current on has at most seven blocks, and every block has failed as often as its place says |
| `Arena.RunInside` | v3.3/src/core/pub_pool.c:7-191 | In every run on a pool that holds its head and whose size is a multiple of 8, every piece lies in its memory block |
| `Arena.BehindTheEnd` | v3.3/src/core/pub_pool.c:113-118 | A pool larger than its head whose size is no multiple of 8 hands out a byte behind its end, after its first block was filled byte by byte |
| `Arena.BelowTheHead` | v3.3/src/core/pub_pool.c:15-20 | A pool smaller than its head hands out its first piece behind its end |
| `Arena.StaysInsideIff` | v3.3/src/core/pub_pool.c:7-191 | Created with any size, a pool keeps every piece in its memory block in all runs if and only if the size holds the head and is a multiple of 8, or only empty pieces can be asked for |
| `Arena.FailuresFall` | v3.3/src/core/pub_pool.c:174-188 | The failures fall along the chain from current on, and every block before it has failed at least six times |
| `Arena.Pool.AllocLarge` | v3.3/src/core/pub_pool.c:194-232 | A large request is entered in the first free one of the first five entries, or in a new entry whose head is a small request, or not at all |
| `Arena.Pool.FreeLarge` | v3.3/src/core/pub_pool.c:260-275 | Giving a large allocation back empties its entry, and fails exactly when it has none |
| `Arena.LargeHeld` | v3.3/src/core/pub_pool.c:194-232 | A large request that succeeds enters exactly its allocation, once; one that fails enters nothing |
| `Arena.FreeHeld` | v3.3/src/core/pub_pool.c:260-275 | Giving a large allocation back takes out just that one |
| `Plist.SlotStable` | v3.3/src/comm/dfs_plist.c:538-581 | The place found from the tail is behind all elements that are not greater, the equal ones among them |
| `Plist.SlotSorts` | v3.3/src/comm/dfs_plist.c:504-586 | Inserting there keeps a sorted list sorted, for any total preorder |
| `Plist.InsertedOne` | v3.3/src/comm/dfs_plist.c:504-586 | Inserting adds exactly one element |
| `Plist.Plist.AddHead` | v3.3/src/comm/dfs_plist.c:76-109 | The list gains the element in front |
| `Plist.Plist.AddTail` | v3.3/src/comm/dfs_plist.c:111-144 | The list gains the element behind |
| `Plist.Plist.InsertNode` | v3.3/src/comm/dfs_plist.c:146-196 | The list gains the element before or behind the given node |
| `Plist.Plist.InsertSort` | v3.3/src/comm/dfs_plist.c:504-586 | The list gains the element at the place found from the tail |
| `Plist.Plist.DelNode` | v3.3/src/comm/dfs_plist.c:198-232 | The list loses exactly the node |
| `Plist.Plist.PopHead` | v3.3/src/comm/dfs_plist.c:366-401 | The first element is returned and leaves the list |
| `Plist.Iter.Next` | v3.3/src/comm/dfs_plist.c:283-299 | The iterator gives its node and steps on in its direction |
| `Plist.Plist.Traverse` | v3.3/src/comm/dfs_plist.c:283-299 | Going through the list from the tail gives the exact reverse of going from the head |
| `Plist.Plist.Search` | v3.3/src/comm/dfs_plist.c:301-329 | The first match from the chosen end is found, by the match function or by the address of a node's data, and null is returned exactly when there is none; without an iterator the code follows a null pointer |
| `Plist.Plist.Dup` | v3.3/src/comm/dfs_plist.c:413-459 | A new list of the same data, or null exactly when the list, the iterator or the nodes cannot be had; without the iterator the code follows a null pointer |
| `Hash.PushedRight` | v3.3/src/core/pub_hash.c:130-141 | A new first node of its bucket keeps the chains and adds its key to the map |
| `Hash.UnlinkedRight` | v3.3/src/core/pub_hash.c:160-173 | A node taken out of its chain keeps the others and takes its key from the map |
| `Hash.CopyFits` | v3.3/src/core/pub_hash.c:65-121 | A copied key can be compared with every key without reading past the copy if and only if it fits the key size with its terminator |
| `Hash.CompareCopy` | v3.3/src/core/pub_hash.c:65-121 | And then the comparison finds exactly the equal key |
| `Hash.Table.constructor` | v3.3/src/core/pub_hash.c:8-36 | A table of the empty map |
| `Hash.Table.GetNode` | v3.3/src/core/pub_hash.c:52-71 | The node of the key, or null exactly when the map lacks it |
| `Hash.Table.Lookup` | v3.3/src/core/pub_hash.c:73-84 | The value of the map |
| `Hash.Table.Add` | v3.3/src/core/pub_hash.c:86-144 | Fails exactly on a present key, a bucket out of range or missing memory, and else adds the key to the map; the keys all fit afterwards exactly when they did and the new one does |
| `Hash.Table.Free` | v3.3/src/core/pub_hash.c:146-178 | Fails exactly on an absent key, and else takes that key only from the map |

## Left out

- SlabPool.Pool.Free: does not say what happens to a pointer between the last page and the end of the pool, which line 475 of `dfs_slab.c` lets through: the code then reads a descriptor behind the table, in memory that is not modelled.
- SlabPool.Pool.constructor: takes a memory area in which at least one page fits behind its tables; the code has no check for it.
- `dfs_slab.c`: the mutex, logging, filling freed memory, `dfs_slab_calloc_locked`, and pages of 16 KiB and more.
- `core/slab.c`: the same chunk logic for pools that grow and do not join runs.
- `des3.c`: the hex and base64 wrappers, whose helpers are not part of this model, and lengths that are not a whole number of blocks.
- Des.SixteenRounds: runs the eight source lines of two rounds in a loop where the code writes them out.
- `md5.c`: the wrappers that print a digest as text; `agent_md5.c` is a copy.
- Md5.Context.Update: excludes the lengths for which the loop guard wraps, those that `StaysInsideIff` finds to read past the input.
- `dfs_sem.c`: creating, opening and removing semaphore sets, and the kernel's upper limits on values and adjustments. A lock call that fails is an event in dfs_lock_newid, which goes on; elsewhere the caller sees it and it is no step.
- `tcplc.c`: where in the table the dispatcher starts to look (any idle worker may be found here), sockets, reconnecting, link information, a worker that ends and the scan thread that restarts it, and what a worker does with its job.
- Dispatch.RunEven: takes messages one after another; the increment of `task_cnt` outside the lock can lose counts when dispatchers run side by side.
- `procs.c`: lookups of other tables, and the times and texts of a process entry.
- Route.Head.SndDst: the message queues, the serialised variables and the alarm count behind the push are one parameter; names are not cut to their field sizes.
- Arena.Pool.AllocLarge: with a `max` below 16 the code asks for the head of an entry as for another large allocation, again and again until memory runs out; large requests are modelled from 16 on. Their memory is known by its address only.
- `pub_pool.c`: clean-up handlers, aligned large allocations, and destroying a pool. The chain is a sequence of blocks rather than linked nodes.
- Plist.Plist.Dup: like the code it copies the data only, not the match, release and sort functions.
- `dfs_plist.c`: access by index and the release of a whole list.
- Hash.Table.Add: compares keys as strings, which is what the code does as long as all keys fit the key size (`AllFit`, `CopyFits`); what `strcmp` finds behind the copy of a longer key is not modelled.
- `pub_hash.c`: freeing a whole table.
- Sockets, select loops, fork and signals, files, shared-memory mapping, JNI, database and XML calls: input and output.
- `pub_stack.c`, `pub_minifun.c`, `uni_trace.c`, `job.c`, `variable.c`: a growing array of pointers, functions on texts and dates, the list of traced messages, the job configuration, and accessors of message variables.
