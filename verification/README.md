# Verified models of six programs

This project models the state-heavy C programs of the repository in Dafny and proves what they
are for. Each file below is one module; a model of code that updates things in place is a class or a
method on arrays, proved against a value-level specification.

* **Radix-tree priority store** (`Bits`, `Trie`, `TrieInHeap`, `Allocator`, `RadixStore`,
  `CommandLoop`). `Allocator.Heap` is the segregated free-list allocator over a word-addressed
  memory: links lie inside free blocks, a size word lies in front of every live block, and the blocks
  tile the heap. `Trie` is the path-compressed binary trie as a value; `TrieInHeap` says how it lies
  in the live blocks of the heap. `RadixStore.Store` is the program's tree: its nodes are exactly the
  live blocks. `CommandLoop.Radix` is the whole program, shown equal to a machine that keeps one
  ascending sequence.
* **Decimal printer and parser** (`Decimal`), in wrapping 32-bit arithmetic.
* **Streaming SHA-256** (`Sha256Spec`, `Sha256`). The specification is FIPS 180-4, sections 4.1.2,
  4.2.2, 5.1.1, 5.2.1, 5.3.3 and 6.2.2; the program is the incremental context with both update loops,
  the sliding-pointer schedule and the unrolled rounds. Three modules hold the specification to what
  it is to mean: `Sha256Bits` its word functions, bit by bit, `Sha256Constants` its constants, as roots
  of primes, and `Sha256Sample` the whole of it, on the sample message of the source.
* **Blocking job queue** (`JobQueue`) as steps of any number of threads, with a mutex and condition
  waits that may end at any time, and **the bit histogram programs**: the sequential one (`Histogram`),
  the workers' counting and merging (`HistogramWorkers`), and the whole threaded program, in which the
  main thread pushes paths and destroys the queue and the workers pop, statement by statement
  (`ThreadedHistogram`).
* **Probe-limited hash table** (`Assembly`), refining a finite map.
* **Lazily paged memory** (`PagedMemory`), agreeing with a flat little-endian byte memory, whose reads
  return what was written last.
* **Search-tree index** (`IdQuery`), agreeing with the linear scan, duplicates included.

A run of the concurrent models is a sequence of states in which any thread that can move takes one
step at a time; an access outside an array would leave an arbitrary state, and the invariant shows
that none occurs. Requirements on callers are those the programs meet: numbers added to the radix
tree are non-negative, payloads released are live, addresses in the hash table are non-negative, the
queue has room for a job, and pushers are done before destroy is called.

One promise is broken for one input, wherever something is stored. A negative command `-N` takes `N`
numbers, except that the smallest 32-bit integer takes none, because its negation is still negative;
`NegativeCommandExact` gives the exact condition. The size arithmetic of `allocate` overflows for the eleven largest requests;
`RoundedSizeExact` gives that condition.

Paths in the table are relative to the repository root.

## Model

| member | source | states |
|---|---|---|
| Allocator.Heap.Allocate | A6/handout/lib.c:146-191 | for every request whose size arithmetic does not overflow: NULL, with nothing changed, exactly when the request is below 1 or its rounded block reaches 4096 bytes; otherwise a payload that was not live becomes live, in the smallest block with room for it, every other live payload keeps its address and contents, and the block is the first of the list of its size, which goes on with the rest, or the first of a new chunk when that list is empty; the heap invariant holds: blocks tile the heap, lists are acyclic and sorted by size, every block is live or free and not both |
| Allocator.RoundedSizeExact | A6/handout/lib.c:152-161 | in 32-bit signed arithmetic the size of the block is the rounded request, and the list index non-negative, if and only if the request is at most 0x7ffffff4 |
| Allocator.BlockSizeLeast | A6/handout/lib.c:152-165 | the block of a request is the smallest multiple of 8 bytes with room for the request and its size word, and it has a list exactly for requests up to 4084 bytes |
| Allocator.ChunkAt | A6/handout/lib.c:171-184 | block i of a chunk starts i block sizes behind the first one |
| Allocator.Heap.Serve | A6/handout/lib.c:166-191 | a size that has a list is always served; the free space grows exactly when the list is empty, by ten blocks, or twelve of the smallest |
| Allocator.Heap.SplitChunk | A6/handout/lib.c:167-184 | a fresh chunk is cut into blocks of one size, and its empty list becomes those blocks in the order of their addresses, with the tiling intact at every turn; no other list changes |
| Allocator.Heap.TakeBlock | A6/handout/lib.c:185-190 | the first block of a list becomes live with its size in front, and the list goes on with the rest |
| Allocator.Heap.Release | A6/handout/lib.c:193-201 | exactly the given live payload stops being live, and its block comes to the front of the list of its size; no other list changes; the invariant holds |
| Allocator.Heap.Store | A6/handout/lib.c:185-190 | a client write inside a live payload changes that word only and cannot break the invariant |
| Allocator.EveryAddressInOneBlock | A6/handout/lib.c:146-201 | every address between the heap start and the free space lies in exactly one block, which is live or on exactly one free list, never both |
| Allocator.SplitStep | A6/handout/lib.c:179-183 | one turn of the splitting loop keeps tiling, lists, partition and live payloads |
| Allocator.ReleaseKeeps | A6/handout/lib.c:193-201 | pushing a released block on the list of its size keeps all parts of the invariant |
| Allocator.StoreKeepsLists | A6/handout/lib.c:185-190 | a write inside a payload touches no link of any free list |
| Bits.ValueSucc | A6/handout/radix.c:13-27 | the number a word stands for, read bit by bit, goes up by one with the word, from 0 for 0 |
| Bits.ValueOfNeg | A6/handout/radix.c:165-166 | a word other than zero and its negation stand for numbers that add up to 2^32 |
| Bits.SignIsValue | A6/handout/radix.c:164 | a command is non-negative exactly when its word stands for less than 2^31 |
| Bits.ValueOrder | A6/handout/radix.c:17-27 | two numbers that agree above a one-hot position and differ there are ordered as that bit is |
| Bits.SkipRun | A6/handout/radix.c:46-49 | if the masked difference over a range of positions is zero, the numbers agree down to the lower end of the range |
| Bits.SearchStep | A6/handout/radix.c:53 | while the current bit is not the differing one, halving the position keeps the difference below it and cannot run out |
| Trie.ItemsAscending | A6/handout/radix.c:15-88 | in a well-formed trie the stored numbers, read from left to right, ascend |
| Trie.DropItems | A6/handout/radix.c:91-128 | taking k leaves a well-formed trie that holds the old sequence without its k smallest members |
| Trie.SmallestOfBranch | A6/handout/radix.c:110-118 | the k smallest numbers of a branch are those of its zero side followed by what remains from its one side |
| Trie.AddNewLeaf | A6/handout/radix.c:36-45 | a new leaf in a free slot on the number's path keeps the trie well formed and adds one occurrence |
| Trie.AddToLeaf | A6/handout/radix.c:80-86 | counting at a leaf that agrees with the number adds one occurrence of it |
| Trie.Inject | A6/handout/radix.c:50-69 | injecting a branch at the highest differing bit above a subtree keeps the trie well formed and its contents unchanged |
| TrieInHeap.Replaced | A6/handout/radix.c:38-43 | storing through a parent slot replaces that subtree in the heap and nothing else |
| TrieInHeap.ToRoot | A6/handout/radix.c:31-88 | what the heap holds at the end of a path is, seen from the root, the whole tree |
| RadixStore.Store.HighestDifference | A6/handout/radix.c:51-53 | the loop ends at the highest bit of the range in which the two numbers differ |
| RadixStore.Store.InjectBranch | A6/handout/radix.c:54-68 | a new block becomes the branch above the subtree, and the slot for the number is its free side |
| RadixStore.Store.AddLeaf | A6/handout/radix.c:36-45 | a new block becomes the leaf for the number in the free slot |
| RadixStore.Store.AddNumber | A6/handout/radix.c:31-88 | for every non-negative number the loop ends, the tree stays well formed with its nodes exactly the live blocks, and the stored multiset gains one occurrence |
| RadixStore.Store.TakeLeaf | A6/handout/radix.c:95-109 | writes the smallest numbers of the leaf, lowers its counts, and releases and unlinks it exactly when it is empty |
| RadixStore.Store.TakeBranch | A6/handout/radix.c:110-119 | writes the smallest numbers of both subtrees and releases and unlinks the branch exactly when both are gone |
| RadixStore.Store.TakeNumbers2 | A6/handout/radix.c:91-122 | for any subtree, writes its smallest numbers in order from the start position and leaves the subtree without them |
| RadixStore.Store.TakeNumbers | A6/handout/radix.c:126-128 | the buffer starts with the min(max_nums, size) smallest numbers ascending, the rest of it is unchanged, and the tree is the old one without them, its nodes again exactly the live blocks |
| RadixStore.Store.ReleaseTree | A6/handout/radix.c:131-139 | exactly the blocks of the tree's nodes stop being live |
| RadixStore.TakenFromBranch | A6/handout/radix.c:110-113 | two takes, one in each subtree, amount to one take in the branch above |
| CommandLoop.NegativeCommandExact | A6/handout/radix.c:164-180 | a negative command, whose word stands for 2^32 - N, hands out the N smallest numbers, or all there are, if and only if it is not the smallest integer or nothing is stored |
| CommandLoop.SmallestTakesNothing | A6/handout/radix.c:164-167 | the smallest integer, as a command, changes nothing and writes nothing |
| CommandLoop.InsertHolds | A6/handout/radix.c:181-184 | the reference machine's insertion keeps its sequence ascending and adds one occurrence |
| CommandLoop.StepMoves | A6/handout/radix.c:163-185 | a non-negative command leaves the output alone and stores its number; a negative one moves numbers from the store to the end of the output; the store stays ascending |
| CommandLoop.NumbersConserved | A6/handout/radix.c:156-186 | for every sequence of commands, what was written and what is stored are together the non-negative commands, each as often as it occurs |
| CommandLoop.SortedUnique | A6/handout/radix.c:31-128 | ascending sequences with equal multisets are equal, so the stored multiset determines all output |
| CommandLoop.AddIsInsert | A6/handout/radix.c:31-88 | adding to the tree is inserting into the machine's sequence |
| CommandLoop.TakeInRounds | A6/handout/radix.c:164-180 | rounds of at most 2800 end, and output and leave what a single take of the whole amount does |
| CommandLoop.Execute | A6/handout/radix.c:163-185 | one command does to the tree and the output what it does to the machine |
| CommandLoop.CountsFit | A6/handout/radix.c:80-86 | no leaf ever counts more than the commands so far, so no `int` count overflows in fewer than 2^31 commands |
| CommandLoop.RunConcat | A6/handout/radix.c:156-186 | cutting the commands into separate reads does not matter |
| CommandLoop.Radix | A6/handout/radix.c:141-191 | for every input the program writes what the machine writes, and at its end no block is live |
| CommandLoop.AllBlocks | A6/handout/radix.c:31-139 | between operations the live blocks are exactly the nodes of the tree |
| Decimal.ProduceDigits | A6/handout/lib.c:111-116 | the digits are produced in reverse order |
| Decimal.ReverseInPlace | A6/handout/lib.c:119-126 | the prefix of the buffer is reversed and the rest unchanged |
| Decimal.UnsToStr | A6/handout/lib.c:105-128 | the buffer starts with the canonical decimal form and a terminator and is otherwise unchanged; the result is the length of the string if and only if the number is zero, and one less otherwise |
| Decimal.DigitCount | A6/handout/lib.c:105-128 | ten digits and a terminator are enough for every 32-bit number |
| Decimal.LargestDigits | A6/handout/lib.c:105-128 | the largest 32-bit number prints as 4294967295 |
| Decimal.StrToUns | A6/handout/lib.c:97-103 | for every non-empty string, of any length and with any leading zeros, the result is its decimal value modulo 2^32 |
| Decimal.ParseStep | A6/handout/lib.c:100 | one step with a reduction after every operation is one step of the decimal value, modulo 2^32 |
| Decimal.LeadingZero | A6/handout/lib.c:97-103 | a leading zero does not change the value of a string |
| Decimal.PrintAndParse | A6/handout/lib.c:97-128 | printing any 32-bit number into an 11-byte buffer and parsing the buffer gives the number back |
| Decimal.ValOfDigits | A6/handout/lib.c:97-128 | the canonical decimal form of every number has that number as its value |
| Sha256.FastChCorrect | A3/src/sha256.c:64 | the rewritten Ch is the Ch of FIPS 180-4 section 4.1.2 |
| Sha256.FastMajCorrect | A3/src/sha256.c:65 | the rewritten Maj is the Maj of FIPS 180-4 section 4.1.2 |
| Sha256.UpperSigmaCorrect | A3/src/sha256.c:66-67 | the macros SIGMA0 and SIGMA1 are the functions of FIPS 180-4 section 4.1.2 |
| Sha256.LowerSigmaCorrect | A3/src/sha256.c:68-69 | the macros sigma0 and sigma1 are the functions of FIPS 180-4 section 4.1.2 |
| Sha256Bits.BigSigma0Bits | A3/src/sha256.c:66 | bit i of the result is the parity of bits i+2, i+13 and i+22, modulo 32 |
| Sha256Bits.BigSigma1Bits | A3/src/sha256.c:67 | bit i of the result is the parity of bits i+6, i+11 and i+25, modulo 32 |
| Sha256Bits.SmallSigma0Bits | A3/src/sha256.c:68 | bit i of the result is the parity of bits i+7 and i+18, modulo 32, and of bit i+3 where there is one |
| Sha256Bits.SmallSigma1Bits | A3/src/sha256.c:69 | bit i of the result is the parity of bits i+17 and i+19, modulo 32, and of bit i+10 where there is one |
| Sha256Bits.ChBits | A3/src/sha256.c:64 | each bit of Ch is the bit of y where x has one, and of z elsewhere |
| Sha256Bits.MajBits | A3/src/sha256.c:65 | each bit of Maj is the one that at least two of the words have |
| Sha256Constants.ConstantIsCubeRoot | A3/src/sha256.c:84-101 | constant t is, for every t < 64, the first 32 bits behind the point of the cube root of the prime number that has exactly t smaller primes |
| Sha256Constants.InitialIsSquareRoot | A3/src/sha256.c:189-196 | initial hash word t is the first 32 bits behind the point of the square root of the prime number that has exactly t smaller primes |
| Sha256Constants.TrialCorrect | A3/src/sha256.c:84-101 | below 361, the numbers that pass trial division by the primes up to 17 are exactly the primes |
| Sha256Sample.SampleDigest | A3/src/sha256.c:32-35 | the specified digest of "abc" is the first of the sample outputs listed in the source |
| Sha256.DoRoundCorrect | A3/src/sha256.c:71-82 | the round macro is one round of FIPS 180-4 section 6.2.2 |
| Sha256.ByteSwapCorrect | A3/src/sha256.c:112-113 | swapping a word loaded on a little-endian machine gives the big-endian word of the same bytes |
| Sha256.LengthInMemory | A3/src/sha256.c:116-121 | the swapped length lies in memory as the big-endian length |
| Sha256.SwappedInMemory | A3/src/sha256.c:413-414 | storing a swapped word writes its bytes in big-endian order, as the byte-wise digest loop does |
| Sha256.Context.Expand | A3/src/sha256.c:221-237 | the five sliding pointers fill the array with the message schedule |
| Sha256.Context.AllRounds | A3/src/sha256.c:239-264 | sixteen turns of four rounds are the 64 rounds of the specification |
| Sha256.Context.Guts | A3/src/sha256.c:211-318 | the hash words become the compression function of their old value and the block |
| Sha256.Context.Update | A3/src/sha256.c:368-388 | for every starting context and input, hash state, buffered bytes and length are those of absorbing the input |
| Sha256.Context.UpdateFast | A3/src/sha256.c:327-366 | the variant that hashes whole blocks of the input directly leaves the same context as the plain loop |
| Sha256.AbsorbTwice | A3/src/sha256.c:320-393 | absorbing two pieces is absorbing their concatenation |
| Sha256.PadLengthCorrect | A3/src/sha256.c:402-404 | for every message length the padding is one 0x80 byte and the specified number of zero bytes |
| Sha256Spec.PaddingIsLeast | A3/src/sha256.c:402-404 | that number of zero bits is the least that leaves 448 modulo 512 |
| Sha256Spec.LengthSamples | A3/src/sha256.c:377 | the length field holds the number of bits modulo 2^64: 2^32 for 2^29 bytes, 2^64 - 8 for the longest message that fits, and 8 for one of 2^61 + 1 bytes |
| Sha256.TailPads | A3/src/sha256.c:402-409 | message and tail together are the padded message of FIPS 180-4 section 5.1.1 |
| Sha256.FinalHash | A3/src/sha256.c:395-409 | after the tail the hash is that of all blocks of the padded message |
| Sha256.Context.Final | A3/src/sha256.c:395-424 | the tail is absorbed and the digest written in big-endian order |
| Sha256.HashPieces | A3/src/sha256.c:181-424 | for every message and every way of cutting it into updates, the output is the SHA-256 digest of the concatenation |
| JobQueue.InitialInv | A2/job_queue.c:9-29 | a new queue satisfies the invariant |
| JobQueue.StepMutex | A2/job_queue.c:32-172 | every step keeps mutual exclusion |
| JobQueue.StepRing | A2/job_queue.c:55-172 | every step of every thread keeps the ring equal to the jobs stored and not yet taken, also between the updates of a critical section |
| JobQueue.StepHands | A2/job_queue.c:86-172 | every step keeps the jobs taken equal to the jobs returned, in order, and the one in the hands of the mutex holder |
| JobQueue.StepCount | A2/job_queue.c:86-172 | every step keeps the consumer count equal to the number of consumers inside |
| JobQueue.StepDestroy | A2/job_queue.c:32-50 | every step keeps what is known about the flag, the end of the pushes and the emptied queue |
| JobQueue.StepInv | A2/job_queue.c:32-172 | every step of every thread keeps the whole invariant |
| JobQueue.RunInv | A2/job_queue.c:9-172 | every state of every run satisfies the invariant |
| JobQueue.DeliveredInOrder | A2/job_queue.c:55-172 | in every state of every run, the jobs popped are a prefix of the jobs pushed |
| JobQueue.PopReturnsItsOwn | A2/job_queue.c:86-172 | in every run, the n-th pop to return a job returns the n-th job pushed, so each successful pop has a job of its own |
| JobQueue.ReturnedInOrder | A2/job_queue.c:86-172 | in every state of every run, the jobs that pops have returned are a prefix of the jobs pushed |
| JobQueue.RingHolds | A2/job_queue.c:67-77 | whenever the mutex is free, 0 <= count <= capacity, prod = (cons + count) mod capacity, and the ring holds in order exactly what was pushed and not popped |
| JobQueue.ConsumersCounted | A2/job_queue.c:93-171 | in every state of every run, `cons_amount` is the number of consumers between counting and uncounting, waiting or running |
| JobQueue.DestroyedEmpty | A2/job_queue.c:36-43 | when destroy leaves its wait loop no consumer is inside, and from then on every pushed job has been popped |
| JobQueue.PopFailsWhenDrained | A2/job_queue.c:88-107 | a pop fails only after destroy was called and every pushed job was popped, although its first tests are made without the mutex |
| JobQueue.DrainedStays | A2/job_queue.c:32-172 | a queue that was destroyed and emptied stays so under every step |
| JobQueue.MutualExclusion | A2/job_queue.c:55-172 | at most one thread is between taking and releasing the mutex, and no push takes the branch that unlocks a mutex it does not hold |
| JobQueue.WaitsExactly | A2/job_queue.c:36-39 | in every run: a push waits exactly where as many jobs are pushed and not popped as the ring holds, a pop exactly where nothing is left and the flag is not set, destroy exactly where something is left or a consumer is inside, and a pop gives up inside exactly where nothing is left |
| JobQueue.NobodyStuck | A2/job_queue.c:32-172 | in every state of every run every thread can move when the mutex is free, and its holder when it is not |
| JobQueue.PushAlone | A2/job_queue.c:55-82 | with nobody else moving, a push, or one that wakes, stores its job in the next slot and returns, or waits on a full queue with nothing changed |
| JobQueue.PopInside | A2/job_queue.c:96-171 | with nobody else moving, a counted consumer takes the oldest job, leaves with nothing from an empty queue that is to be destroyed, and waits at any other empty queue |
| JobQueue.PopGivesUp | A2/job_queue.c:88-91 | a consumer that finds nobody inside, the flag set and the queue empty fails without the mutex |
| JobQueue.PopEnters | A2/job_queue.c:88-98 | every other one takes the mutex, is counted and comes to its test, as does one that wakes |
| JobQueue.DestroyAlone | A2/job_queue.c:32-52 | with nobody else moving, destroy sets the flag and either goes on to free the ring or, while jobs or consumers are there, waits |
| JobQueue.Queue.StepThread | A2/job_queue.c:32-172 | executing one step in place on the fields and the ring array is the step of the state machine and keeps the invariant |
| Histogram.MergeHistogram | A2/histogram.h:53-58 | entry by entry, the counts move to the target and the source is cleared |
| Histogram.UpdateHistogram | A2/histogram.h:61-69 | entry k grows by one exactly when bit k of the byte is set |
| Histogram.BitsMakeByte | A2/histogram.h:61-69 | the bits counted for a byte, weighted by 1, 2, 4 up to 128, add up to the byte |
| Histogram.OnesLaws | A2/histogram.h:61-69 | the count of no bytes is zero, and one more byte adds one exactly when its bit k is set |
| Histogram.AllBytesLaws | A2/fhistogram.c:23-52 | one more file adds its bytes, or nothing when it cannot be opened |
| Histogram.FHistogram | A2/fhistogram.c:23-52 | an unreadable file changes nothing; otherwise the global histogram gains the bit counts of the file, wherever the periodic merges fall |
| Histogram.Sequential | A2/fhistogram.c:76-86 | the program ends with the histogram of the bytes of all readable files |
| Histogram.OnesConcat | A2/fhistogram.c:36-43 | bit counts of a concatenation add up |
| HistogramWorkers.CountsMove | A2/fhistogram-mt.c:43-60 | one step moves counts from a local histogram to the global one, or adds those of the byte read, entry by entry, with the read and the write of a global entry separate steps |
| HistogramWorkers.BytesMove | A2/fhistogram-mt.c:29-74 | one step moves bytes from the files given to a worker, or from a worker to the bytes read |
| HistogramWorkers.StepInv | A2/fhistogram-mt.c:29-74 | every step of every worker keeps the invariant, whatever files it is given |
| HistogramWorkers.WorkerProgress | A2/fhistogram-mt.c:40-72 | every step of a worker with a file brings it closer to the end of that file, so it gets there in a bounded number of steps; a worker that asks for a file starts on it exactly when it gets one that can be opened, and stops exactly when there is none |
| HistogramWorkers.KeptBound | A2/fhistogram-mt.c:43-52 | workers keep at most the counts of 100000 bytes each to themselves |
| HistogramWorkers.Thread.Advance | A2/fhistogram-mt.c:29-74 | a step executed in place on a thread's own variables and histogram is the worker's step |
| HistogramWorkers.Counters.StepThread | A2/fhistogram-mt.c:29-74 | a step executed in place on the shared array and mutex, with the other threads' histograms untouched, is a step of the state machine and keeps the invariant |
| ThreadedHistogram.MainAllowed | A2/fhistogram-mt.c:135-147 | the main thread pushes only before it destroys the queue, and destroys it once, with no push under way |
| ThreadedHistogram.StepMain | A2/fhistogram-mt.c:135-147 | every statement of the main thread's pushes and of its destroy keeps the invariant: the jobs pushed are the paths sent so far |
| ThreadedHistogram.StepFetching | A2/fhistogram-mt.c:62-72 | every statement of a worker's pop keeps the invariant: the files given to workers are those of the jobs their pops returned, and a worker stops only when the queue is drained |
| ThreadedHistogram.StepInv | A2/fhistogram-mt.c:29-147 | every statement of every thread, in the queue or counting, keeps the invariant of the whole program |
| ThreadedHistogram.RunInv | A2/fhistogram-mt.c:29-147 | every state of every run of the whole program satisfies it |
| ThreadedHistogram.CallsAllowed | A2/fhistogram-mt.c:135-147 | in every state of every run, each thread makes only the calls the job queue asks of its callers |
| ThreadedHistogram.NothingLost | A2/fhistogram-mt.c:29-74 | in every state of every run, global plus local counts are the bit counts of the bytes read so far |
| ThreadedHistogram.NeverFarBehind | A2/fhistogram-mt.c:43-52 | in every state of every run, each entry of the global histogram is at most 100000 for each worker behind the bits read |
| ThreadedHistogram.NeverStuck | A2/fhistogram-mt.c:29-147 | in every state of every run some thread can move, unless destroy has returned and all workers are done |
| ThreadedHistogram.CompletedRun | A2/fhistogram-mt.c:29-147 | every completed run, with any number of workers and any interleaving of the statements of the job queue and of the counting, ends with the bit counts of the files that the paths lead to |
| ThreadedHistogram.SequentialAgrees | A2/fhistogram.c:76-86 | the sequential program ends with the same array for the same files as every completed run of the threaded one |
| ThreadedHistogram.Program.RunMain | A2/fhistogram-mt.c:135-147 | a step of the main thread executed in place on the queue is a step of the whole program |
| ThreadedHistogram.Program.RunWorker | A2/fhistogram-mt.c:29-74 | a step of a worker executed in place, on the queue or on the counters, is a step of the whole program |
| Assembly.Assembly.constructor | A5/src/assembly.c:115-123 | a new table represents the empty map |
| Assembly.Assembly.FindEntry | A5/src/assembly.c:23-36 | finds the slot of the key if and only if the key is anywhere in the table |
| Assembly.Assembly.FindEmpty | A5/src/assembly.c:38-51 | fails exactly when all four probed slots are taken; otherwise gives an empty probed slot, the home slot if it is free |
| Assembly.Assembly.Rehash | A5/src/assembly.c:61-81 | an attempt places every entry within four probes of its home slot, or fails, which it can only while the table is not larger than every key |
| Assembly.Assembly.GrowAndRehash | A5/src/assembly.c:53-85 | terminates for every valid table; the larger table represents the same map, all keys are at home once it is larger than all of them, and it is one doubling or less than twice the bound on the keys |
| Assembly.Assembly.FindSlot | A5/src/assembly.c:89-99 | the retry loop terminates with the slot to write; the table grows exactly when the key is not there and all its four slots are taken, and is then less than twice as large as the bound on the keys |
| Assembly.Assembly.Set | A5/src/assembly.c:87-105 | the represented map is updated at the key; the table grows exactly when the key is not there and all its four slots are taken, and is then less than twice as large as any bound on its keys, so with keys below 2^30 its size fits an `int` |
| Assembly.Assembly.Get | A5/src/assembly.c:107-113 | the text last set for the address, or the empty string |
| Assembly.PlaceKeeps | A5/src/assembly.c:100-104 | a new key in an empty probed slot keeps addresses unique and within four probes |
| Assembly.HomeIsFree | A5/src/assembly.c:38-51 | where all keys are at home and the table is larger than a new key, the new key's home slot is empty |
| Assembly.RoomAtHome | A5/src/assembly.c:89-99 | a table at least as large as a bound on the keys never has to grow for a new one |
| Assembly.WriteSettled | A5/src/assembly.c:100-104 | in a table larger than every key, every key stays in its home slot |
| Assembly.MovedRepresents | A5/src/assembly.c:65-81 | a rehashed table represents the same map |
| PagedMemory.SameWord | A5/src/memory.c:25-43 | the shifted and masked page number and index of two addresses are equal exactly when the addresses lie in the same word |
| PagedMemory.LowHalfLanes | A5/src/memory.c:55-56 | the masked update of the low halfword replaces the two low bytes only |
| PagedMemory.HighHalfLanes | A5/src/memory.c:57-58 | the masked update of the high halfword replaces the two high bytes only |
| PagedMemory.HalfByte | A5/src/memory.c:55-58 | for an even address, the update chosen by its second bit replaces exactly the bytes at that address and the next |
| PagedMemory.PutByteLanes | A5/src/memory.c:61-80 | the masked update of a byte replaces that byte of the word only |
| PagedMemory.PutWordBytes | A5/src/memory.c:43 | replacing an aligned word changes exactly four bytes of the flat memory |
| PagedMemory.PutHalfBytes | A5/src/memory.c:55-58 | the update of the half that an even address chooses changes exactly two bytes of the flat memory |
| PagedMemory.Memory.GetPage | A5/src/memory.c:25-33 | creating a page changes no value |
| PagedMemory.Memory.WriteWord | A5/src/memory.c:35-44 | refused exactly on a misaligned address, with no change; otherwise the flat memory changes at exactly four addresses, to the little-endian bytes of the word |
| PagedMemory.Memory.WriteHalf | A5/src/memory.c:46-59 | refused exactly on an odd address, with no change; otherwise the flat memory changes at exactly two addresses |
| PagedMemory.Memory.WriteByte | A5/src/memory.c:61-80 | the flat memory changes at exactly one address |
| PagedMemory.Memory.ReadWord | A5/src/memory.c:82-91 | refused exactly on a misaligned address; otherwise the four bytes; no value changes although a page may be created |
| PagedMemory.Memory.ReadHalf | A5/src/memory.c:93-106 | refused exactly on an odd address; otherwise the two bytes; no value changes |
| PagedMemory.Memory.ReadByte | A5/src/memory.c:108-128 | the byte; no value changes |
| PagedMemory.Memory.Execute | A5/src/memory.c:35-128 | any access does to the paged memory what it does to a flat byte memory it agrees with |
| PagedMemory.Run | A5/src/memory.c:10-128 | every sequence of accesses to a new memory gives what a zero-initialised flat little-endian byte memory gives; up to the first misaligned access, at which it stops, every read returns, byte for byte and lowest first, what the writes before it stored last at those addresses, or zero |
| PagedMemory.FlatStores | A5/src/memory.c:35-80 | after one more aligned access, the flat memory holds at every address the byte stored last there |
| PagedMemory.FlatAnswers | A5/src/memory.c:82-128 | what the flat memory answers to a read is made of the bytes stored last at its addresses |
| PagedMemory.WrittenIsRead | A5/src/memory.c:35-128 | an aligned word, an even halfword and a byte are read back as they were written |
| IdQuery.LookupNaive | A1/id_query_naive.c:39-50 | the first record with the id, or none |
| IdQuery.ConstructTreeNode | A1/id_query_bonus.c:33-46 | the nodes reached from the result form the tree with the record inserted, equal keys to the right |
| IdQuery.MkIndexed | A1/id_query_bonus.c:48-55 | the nodes form the tree of all records inserted in array order |
| IdQuery.LookupBinary | A1/id_query_bonus.c:65-78 | the recursion finds what a search of the tree finds |
| IdQuery.SearchInsert | A1/id_query_bonus.c:33-78 | after an insertion the new record is found exactly for its id and only where nothing was found before |
| IdQuery.SearchFindsFirst | A1/id_query_bonus.c:33-78 | searching the tree of any array gives the first record with the id, duplicates included |
| IdQuery.LookupsAgree | A1/id_query_bonus.c:65-78 | on every array and for every id, the tree index and the linear scan return the same record |

## Left out

- Allocator.Heap.Allocate: requests above 0x7ffffff4, for which the size overflows and the list index turns negative (`Allocator.RoundedSizeExact`), are excluded by a precondition; addresses are unbounded, so running past the 32-bit address space (the source never checks) is not modelled; words never written read as zero.
- RadixStore.Store.AddNumber: the counts in a leaf are unbounded, where the source would wrap after 2^31 - 1 occurrences of one number; `CommandLoop.CountsFit` bounds them by the number of commands.
- RadixStore.Store.TakeNumbers: a node's union of leaf counts and links is two words of its block; padding and C types of memory are not modelled.
- CommandLoop.Radix: opening, reading and writing files are the given reads and the returned output; a write is taken as complete.
- Decimal.UnsToStr: the buffer is required to have room, as the source relies on; the result is stated as it is, although for non-zero numbers it is one less than the length.
- Sha256.HashPieces: the length is kept modulo 2^64 bits, as in the source; a longer message is outside FIPS 180-4.
- Sha256.Context.Guts: only the default unrolling of four is modelled, on a little-endian machine; the other unroll factors and the run-time byte-order switch are the same text repeated.
- Sha256.Context.Update: `burnStack` wipes the stack and has no effect on values.
- JobQueue.NobodyStuck: that a thread can move, not that it gets to: a waiting thread may wake and wait again, and destroy does not wake waiting consumers, so that it returns is not claimed. Signals have no effect in the model, since a waiting thread may wake at any time.
- JobQueue.DestroyedEmpty: a late pop that uses the mutex after it has been destroyed, and the second, unreachable drain branch of pop (A2/job_queue.c:132-152), are not modelled; the two remaining ways to take a job differ only in the condition they signal and are one branch.
- ThreadedHistogram.CompletedRun: the directory walk is a given list of paths, and what a path leads to does not change during the run; counts are unbounded, and printing and the freeing of paths are left out.
- Assembly.Assembly.Set: the table size is unbounded; the source's `int` can overflow only with keys of 2^30 or more. Negative addresses, which would index in front of the table, are excluded by a precondition; freeing tables and texts is not modelled.
- PagedMemory.Run: `memory_delete` and the messages printed before the program stops are not modelled.
- IdQuery.ConstructTreeNode: `left` and `right` of a new node are null, which the code relies on although `malloc` does not set them; `free_indexed` is not modelled, and a record is its position in the array.
- `malloc` failure is not modelled anywhere.
- `A5/src/simulate.c`: its instructions deviate from the RISC-V manual, so no refinement of it holds.
- `A4/src/peer.c`, `A3/src/networking.c`, the file readers and the query loops: sockets, files and parsing.
- `A0/file.c`, `A1/id_query_indexed.c`, `A1/id_query_binsort.c`, `A1/coord_query_kdtree.c`: single scans over their input, a library sort with a binary search, and a stub.
