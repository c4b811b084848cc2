# Verified models of the crypto, thread-pool and node-registry components

This project models three components of OpenEmber in Dafny and proves what they are for.

**Digests and checksums** (`components/crypto/src`). SHA-256 and MD5 are contexts that are updated in
place: a partial block waits in a buffer, a bit counter runs modulo 2^64, and the final call pads and
flushes. `MerkleDamgard` holds what the two share (absorption in chunks, padding, the collision
reduction) for an arbitrary compression function; `Sha256` and `Md5` are the two instances, with the
mutable contexts proved against one-shot functions for every message and every split into chunks.
`Sha256Answer` and `Md5Answer` derive the digests that the two standards publish for "abc". MD5
keeps its counter in two 32-bit words with a hand-written carry and finds its buffer position in the
low word; both are shown to be right for every length. The three CRCs are table machines. `Gf2` has
polynomials over GF(2) and the shift register that divides by one; `WordBits` reads words as
coefficients. `CrcMachine` says when a register of any width and bit order is sound, that is, divides;
for every sound one it proves uniqueness of the remainder, error detection, linearity, concatenation
and residues. `Crc8`, `Crc16` and `Crc32` prove their table machines against a bitwise register and
that register sound. For CRC-32 the right-shifting register is the mirror image of the left-shifting
one, and its result is the frame check sequence of section 3.2.9 of IEEE 802.3.

**Thread pool** (`components/ppool/src`). `PoolQueue` models the task list as heap nodes linked through
`next`, with the count-then-walk insertion of the source; a ghost sequence says which nodes the list
consists of, and `StableQueue` says what such a queue is: the stable sort by priority. `Pool` models
workers and producers as a transition system with one step for each action on the mutex, the condition
variable and the list, for any number of threads and any interleaving, spurious wake-ups included. The
invariant `Pool.Inv` is shown for every reachable state, and the theorems about exactly-once execution,
order and sleeping follow from it. `PoolProgress` gives the measures.

**Node registry** (`core/runtime/src/node_registry.c`). `NodeRegistry` models the caller's array of
records with scanning, shifting deletion and zeroed slack; `NodeNames` the bounded C strings; and
`NodeDirectory` what the array stands for: a map from names to node data with an order of registration.
Every operation is proved to act on the array as it does on the directory, every slot of the array
being determined by the directory, and the history of any run is read off the directory.

Conventions. `bv8`, `bv16` and `bv32` are the machine words; 64-bit and split counters are natural
numbers with the wrap-around written out. Input buffers are sequences of bytes, everything the source
writes is an array or a field. `malloc` failure is a parameter or a choice of the scheduler. `Update`
and `Final` of a digest context carry a ghost field `message`, the bytes absorbed since `Init`.

## Model

| member | source | states |
|---|---|---|
| MerkleDamgard.AbsorbPiece | components/crypto/src/sha256.c:92-104 | One turn of an update loop, for any compression function: a piece that leaves room in the buffer changes only the tail, a piece that fills it adds exactly one block to the fold and empties the tail. |
| MerkleDamgard.PadInjective | components/crypto/src/sha256.c:113-130 | No two messages have the same padded form, whatever the length field says. |
| MerkleDamgard.PadOneBlock | components/crypto/src/sha256.c:115-116 | With at most 55 bytes waiting, the padding of the standard is the open block completed by mark, zeros and length. |
| MerkleDamgard.PadTwoBlocks | components/crypto/src/sha256.c:117-121 | With more than 55 bytes waiting, it is the open block with mark and zeros, then a block of 56 zeros and the length. |
| MerkleDamgard.ByteOfValue | components/crypto/src/sha256.c:123-130 | A byte of the length field is the remainder of the shifted counter modulo 256. |
| MerkleDamgard.LengthValue | components/crypto/src/md5.c:156-160 | The length bytes, read low byte first, are eight times the number of message bytes modulo 2^64. |
| MerkleDamgard.LengthReversed | components/crypto/src/sha256.c:123-130 | Written high byte first, they are the same bytes in reverse. |
| MerkleDamgard.CollisionBackwards | components/crypto/src/sha256.c:92-104 | If the chaining values after n blocks of one message and d + n blocks of another agree, two different inputs of the compression function met on the way have the same output, or the n blocks agree and the d blocks before them lead back to the initial value. |
| MerkleDamgard.CollisionOrReturn | components/crypto/src/sha256.c:87-140 | For messages of any length: equal digests of different messages come with a collision of the compression function, or else the length fields agree and the blocks by which the longer message is ahead lead back to the initial value. |
| MerkleDamgard.CollisionReduction | components/crypto/src/sha256.c:87-140 | Damgård's theorem: different messages with equal digests come with a collision of the compression function met while hashing them, if equal length fields mean equal lengths. |
| MerkleDamgard.LengthFields | components/crypto/src/md5.c:158-160 | The eight length bytes, in either order, determine the bit length modulo 2^64. |
| MerkleDamgard.LengthsInjective | components/crypto/src/sha256.c:123-130 | Below 2^61 bytes the eight length bytes, in either order, determine the length. |
| Primes.AllPrimes | components/crypto/src/sha256.c:11-20 | The list `PRIMES` ascends and holds the primes up to 311 and nothing else: the first sixty-four. |
| Sha256Constants.RoundConstants | components/crypto/src/sha256.c:11-20 | The 64 round constants are the first 32 bits of the fractional parts of the cube roots of the first 64 primes, as section 4.2.2 of FIPS 180-4 defines them. |
| Sha256Constants.InitialValue | components/crypto/src/sha256.c:74-81 | The eight initial words are those of the square roots of the first eight primes, as section 5.3.3 of FIPS 180-4 has them. |
| Sha256.ChChooses | components/crypto/src/sha256.c:22-22 | Where the bit of x is one, `Ch` has the bit of y, elsewhere that of z. |
| Sha256.MajOnes | components/crypto/src/sha256.c:23-23 | `Maj` has a one wherever two of its three arguments have one ... |
| Sha256.MajZeros | components/crypto/src/sha256.c:23-23 | ... and a zero wherever two of them have zero. |
| Sha256Answer.DigestOfAbc | components/crypto/src/sha256.c:22-148 | SHA-256 of "abc" is the digest that FIPS 180-4 publishes, ba7816bf...f20015ad, with the value of every schedule word and every round on the way. |
| Sha256.FillSchedule | components/crypto/src/sha256.c:41-47 | The loops fill the array with the message schedule of section 6.2.2 of FIPS 180-4. |
| Sha256.RunRounds | components/crypto/src/sha256.c:49-60 | The rotation of eight locals computes the 64 rounds. |
| Sha256.Transform | components/crypto/src/sha256.c:29-70 | The state becomes the compression function of old state and block, feed-forward included. |
| Sha256.RoundsUndone | components/crypto/src/sha256.c:49-60 | The rounds can be undone: for every schedule and every number of rounds the inverse rounds lead back to the start. |
| Sha256.UnroundsRedone | components/crypto/src/sha256.c:49-60 | Every value of the working variables is reached; with the row above, the rounds are a bijection. |
| Sha256.Context.Init | components/crypto/src/sha256.c:72-85 | Establishes the streaming invariant for the empty message. |
| Sha256.Context.Update | components/crypto/src/sha256.c:87-105 | Keeps the streaming invariant (state is the fold over all whole blocks, the buffer prefix is the rest, buffer_len is the length mod 64, bit_count is eight times the length mod 2^64) for the message extended by the data, of any size. |
| Sha256.Context.Finish | components/crypto/src/sha256.c:109-132 | Both padding branches lead to the fold over the padded message. |
| Sha256.PutLength | components/crypto/src/sha256.c:123-130 | The eight shifts write the counter high byte first and nothing else. |
| Sha256.PutDigest | components/crypto/src/sha256.c:134-139 | The words of the state are written high byte first. |
| Sha256.Context.Final | components/crypto/src/sha256.c:107-140 | The output is SHA-256 of everything absorbed since Init. |
| Sha256.Compute | components/crypto/src/sha256.c:142-148 | The one-shot call computes SHA-256 of its data. |
| Sha256.ComputeChunks | components/crypto/src/sha256.c:72-140 | Init, any sequence of updates, Final: the digest is that of the concatenation, whatever the split. |
| Sha256.WordsOfBytes | components/crypto/src/sha256.c:134-139 | Different chaining values give different digest bytes. |
| Sha256.CollisionOrReturn | components/crypto/src/sha256.c:29-140 | Messages of any length: a collision of SHA-256 yields two different (state, block) inputs met while hashing that the block transform sends to the same output, or else the lengths differ by a multiple of 2^61 bytes and the blocks by which the longer message is ahead lead the state back to its initial value. |
| Sha256.CollisionOfTransform | components/crypto/src/sha256.c:29-140 | Unless the lengths differ by such a multiple, which FIPS 180-4 excludes, it is a collision of the block transform. |
| Md5.FChooses | components/crypto/src/md5.c:11-11 | Where the bit of x is one, `F` has the bit of y, elsewhere that of z. |
| Md5.GChooses | components/crypto/src/md5.c:12-12 | Where the bit of z is one, `G` has the bit of x, elsewhere that of y. |
| Md5.HParity | components/crypto/src/md5.c:13-13 | `H` is the parity of its arguments: adding one of them leaves the sum of the others. |
| Md5.ITurns | components/crypto/src/md5.c:14-14 | `I` is the complement of y wherever x has a one or z a zero ... |
| Md5.IKeeps | components/crypto/src/md5.c:14-14 | ... and y elsewhere. |
| Md5.InitialBytes | components/crypto/src/md5.c:116-119 | The initial words, low byte first, are the bytes 01 23 45 ... 10 of section 3.3 of RFC 1321. |
| Md5Answer.DigestOfAbc | components/crypto/src/md5.c:9-185 | MD5 of "abc" is the digest of section A.5 of RFC 1321, 900150983cd24fb0d6963f7d28e17f72, with the value of every step on the way. |
| Md5.Round2 | components/crypto/src/md5.c:54-70 | The second sixteen macro lines, with their changing register roles, are steps 16 to 31 of the block function. |
| Md5.Transform | components/crypto/src/md5.c:23-112 | The 64 macro lines and the feed-forward compute the block function of section 3.4 of RFC 1321. |
| Md5.StepsUndone | components/crypto/src/md5.c:36-106 | The steps can be undone for every block and every number of steps. |
| Md5.UnstepsRedone | components/crypto/src/md5.c:36-106 | Every value of the registers is reached; with the row above, the 64 steps are a bijection. |
| Md5.CountCorrect | components/crypto/src/md5.c:130-134 | After any number of further bytes the two counter words still stand for eight times the total modulo 2^64: the carry test on the low word is exact. |
| Md5.BufferIndex | components/crypto/src/md5.c:128-128 | The position read off the low counter word alone is the total length mod 64, also after wrap-around. |
| Md5.LengthBytes | components/crypto/src/md5.c:156-160 | The bytes cut out of the two words separately are the little-endian form of the 64-bit count. |
| Md5.PaddingArray | components/crypto/src/md5.c:155-167 | The padding length computed from the counter is the least that leaves room for the length field. |
| Md5.Context.Update | components/crypto/src/md5.c:125-150 | Keeps the streaming invariant for the message extended by the data, of any size. |
| Md5.Context.Final | components/crypto/src/md5.c:152-177 | The two padding updates end on a block boundary and the output is MD5 of everything absorbed since Init. |
| Md5.Compute | components/crypto/src/md5.c:179-185 | The one-shot call computes MD5 of its data. |
| Md5.ComputeChunks | components/crypto/src/md5.c:114-177 | The split of the message into updates does not matter. |
| Md5.CollisionOrReturn | components/crypto/src/md5.c:23-177 | Messages of any length: a collision of MD5 yields a collision of the block transform, or else the lengths differ by a multiple of 2^61 bytes and the blocks by which the longer message is ahead lead the state back to its initial value. |
| Md5.CollisionOfTransform | components/crypto/src/md5.c:23-177 | Unless the lengths differ by such a multiple, it is a collision of the block transform. |
| Gf2.DivisionUnique | components/crypto/src/crc.c:42-50 | Division by a generator with leading coefficient one has at most one quotient and remainder, so "the remainder" below means something. |
| Gf2.FeedIsRemainder | components/crypto/src/crc.c:15-21 | A register fed a message bit by bit holds r exactly when r is the remainder of m(x)·x^w + c(x)·x^n divided by the generator; w, the generator and the starting contents are arbitrary. |
| Gf2.FeedInjective | components/crypto/src/crc.c:15-21 | With a constant term in the generator, shifting never merges two registers. |
| Gf2.BurstDetected | components/crypto/src/crc.c:42-50 | Two messages that differ only inside a window of w bits lead to different registers, at any length and from any start. |
| Gf2.WiderBurst | components/crypto/src/crc.c:42-50 | The bound is exact: inside a window of w + 1 bits the registers agree exactly when the difference is the generator. |
| Gf2.DoubleError | components/crypto/src/crc.c:42-50 | Two wrong bits at distance d go undetected exactly when d shifts bring the register with a single one back to itself, at any length and from any start. |
| Gf2.FeedLinear | components/crypto/src/crc.c:42-50 | The register is linear in starting contents and message together. |
| Gf2.FeedParity | components/crypto/src/crc.c:42-50 | A generator with an even number of terms keeps the parity of register and message together. |
| CrcMachine.RunIsFeed | components/crypto/src/crc.c:42-50 | For every sound register, of any width and bit order: the byte-wise run, read as coefficients, is the polynomial register fed the bits of the bytes. |
| CrcMachine.RunIsRemainder | components/crypto/src/crc.c:42-50 | The register is the remainder of m(x)·x^w + I(x)·x^(8n) divided by the generator, and no other value is. |
| CrcMachine.BurstsDetected | components/crypto/src/crc.c:42-50 | Differences inside as many consecutive bits as the register has always change the register and the checksum, at any length. |
| CrcMachine.WiderBurstsDetected | components/crypto/src/crc.c:42-50 | With one bit more, the register and the checksum stay the same exactly when the difference is the generator. |
| CrcMachine.DoubleErrors | components/crypto/src/crc.c:42-50 | The same for the byte-wise run and the checksum of every sound register. |
| CrcMachine.OddErrorsDetected | components/crypto/src/crc.c:42-50 | If the generator has an even number of terms, an odd number of wrong bits, anywhere, always changes the checksum. |
| CrcMachine.CrcAffine | components/crypto/src/crc.c:57-63 | crc(a^b^d) = crc(a)^crc(b)^crc(d) for equal lengths, whatever the initial and final words. |
| CrcMachine.CrcCombine | components/crypto/src/crc.c:57-63 | The checksum of a concatenation from the two checksums and the length of the second part alone. |
| CrcMachine.RunConcat | components/crypto/src/crc.c:42-50 | Two updates do what one update with the concatenation does. |
| CrcMachine.TableStep | components/crypto/src/crc.c:105-105 | If the byte only touches the part of the register that the index covers, shifting the rest and adding the entry is eight bit steps. |
| CrcMachine.Table.BuildEntry | components/crypto/src/crc.c:72-79 | The inner loop leaves eight shifts of the byte that entered; the three tables differ in the shift and in where the byte enters. |
| CrcMachine.Table.Build | components/crypto/src/crc.c:68-82 | Every entry is eight shifts of its index. |
| CrcMachine.Table.EnsureReady | components/crypto/src/crc.c:86-92 | "Ready" always means that the table is right. |
| Crc8.RegisterSound | components/crypto/src/crc.c:10-50 | The bitwise CRC-8 register is sound: one shift is one step of division, contents are known by their coefficients, addition is addition of polynomials, bytes enter high bit first. |
| Crc8.RunDivides | components/crypto/src/crc.c:10-50 | The register is the remainder of m(x)·x^8 + I(x)·x^(8n) modulo x^8 + x^2 + x + 1, and no other value is. |
| Crc8.CrcDivides | components/crypto/src/crc.c:10-63 | The checksum of any data, the empty message included, is the remainder of m(x)·x^8 modulo x^8 + x^2 + x + 1, and no other byte is: the register starts at zero and nothing is added at the end. |
| Crc8.PolyOdd | components/crypto/src/crc.c:12-12 | The generator has an even number of terms, so odd numbers of errors are detected. |
| Crc8.DoubleErrorsDetected | components/crypto/src/crc.c:10-50 | Two wrong bits change the CRC-8 exactly when their distance is not a multiple of 127. |
| Crc8.ChecksumResidue | components/crypto/src/crc.c:57-63 | A message followed by its checksum has checksum 0. |
| Crc8.Context.Update | components/crypto/src/crc.c:42-50 | The table loop computes the bitwise register, from any contents. |
| Crc8.Compute | components/crypto/src/crc.c:57-63 | The one-shot call returns the checksum, whether or not the table was built before. |
| Crc16.RegisterSound | components/crypto/src/crc.c:68-108 | The bitwise CRC-16 register, with bytes at its high end, is sound. |
| Crc16.RunDivides | components/crypto/src/crc.c:68-108 | The register is the remainder of m(x)·x^16 + I(x)·x^(8n) modulo x^16 + x^12 + x^5 + 1, and no other value is. |
| Crc16.CrcDivides | components/crypto/src/crc.c:68-121 | The checksum of any data is the remainder of m(x)·x^16 with sixteen ones added at the front, modulo x^16 + x^12 + x^5 + 1, and no other word is; short and empty messages included. |
| Crc16.CrcComplements | components/crypto/src/crc.c:94-121 | From two bytes on, that is the message with its first sixteen bits complemented. |
| Crc16.PolyOdd | components/crypto/src/crc.c:70-70 | The generator has an even number of terms, so odd numbers of errors are detected. |
| Crc16.ChecksumResidue | components/crypto/src/crc.c:115-121 | A message followed by its checksum, high byte first, has checksum 0. |
| Crc16.LookUp | components/crypto/src/crc.c:105-105 | The table step is eight steps of the bitwise register, for every register and byte. |
| Crc16.Context.Update | components/crypto/src/crc.c:100-108 | The table loop computes the bitwise register, from any contents. |
| Crc16.Compute | components/crypto/src/crc.c:115-121 | The one-shot call returns the checksum. |
| Crc32.RegisterSound | components/crypto/src/crc.c:126-167 | The right-shifting CRC-32 register, read from its low end, is sound, with bytes entering low bit first. |
| Crc32.RunDivides | components/crypto/src/crc.c:126-167 | The register is the remainder of m(x)·x^32 + I(x)·x^(8n) modulo the generator of IEEE 802.3, and no other value is. |
| Crc32.NormalSound | components/crypto/src/crc.c:123-167 | The left-shifting register with 0x04C11DB7 and bit-reversed bytes is sound with the same generator. |
| Crc32.PolyMirrored | components/crypto/src/crc.c:128-128 | 0xEDB88320 read from its low end is 0x04C11DB7 read from its high end. |
| Crc32.RunMirrored | components/crypto/src/crc.c:126-167 | At every point of every message the right-shifting register is the bit reversal of that left-shifting one. |
| Crc32.CrcIsFrameCheck | components/crypto/src/crc.c:123-180 | The result is the frame check sequence of section 3.2.9 of IEEE 802.3, and no other word is. |
| Crc32.ChecksumResidue | components/crypto/src/crc.c:158-180 | A message followed by its checksum, low byte first, has checksum 0x2144DF1C. |
| Crc32.LookUp | components/crypto/src/crc.c:163-164 | The table step is eight steps of the bitwise register, for every register and byte. |
| Crc32.Context.Update | components/crypto/src/crc.c:158-167 | The table loop computes the bitwise register, from any contents. |
| Crc32.Compute | components/crypto/src/crc.c:174-180 | The one-shot call returns the checksum, complemented at the end. |
| StableQueue.InsertOrdered | components/ppool/src/ppool_queue.c:16-29 | Inserting behind everything at most as large keeps the queue sorted by priority and, among equals, by time of insertion. |
| StableQueue.InsertAllSorts | components/ppool/src/ppool_queue.c:70-97 | After any sequence of insertions the queue is the stable sort of what was inserted. |
| StableQueue.StableSortUnique | components/ppool/src/ppool_queue.c:70-97 | There is only one stable sort, so this determines the queue. |
| PoolQueue.NewNode | components/ppool/src/ppool_queue.c:47-68 | A node is made exactly when the priority is not negative and memory is granted, with a null link; otherwise the error variable says which of the two failed. |
| PoolQueue.Queue.GetInsertPos | components/ppool/src/ppool_queue.c:16-29 | -1 for an empty list, otherwise the number of leading nodes that are at most as large. |
| PoolQueue.Queue.Add | components/ppool/src/ppool_queue.c:70-97 | The list is the old list with the node at its stable place. It stays acyclic, sorted and of length len exactly when it was not empty or the node had no link; otherwise it has length one and a second node behind the head. |
| PoolQueue.Queue.GetTask | components/ppool/src/ppool_queue.c:99-112 | Takes the head off, or returns null and changes nothing. |
| PoolQueue.Heap.FreeNode | components/ppool/src/ppool_queue.c:122-122 | A node can be freed only while it is live; afterwards it is not, and its fields hold anything. |
| PoolQueue.Heap.Next | components/ppool/src/ppool_queue.c:121-121 | The link of a node can be followed only while the node is live. |
| PoolQueue.Queue.ReleaseAll | components/ppool/src/ppool_queue.c:119-123 | Every node is freed once, in list order. Since links are followed through Heap.Next and freed nodes hold anything, a walk that reads a node after freeing it does not meet this contract. |
| PoolQueue.Queue.Cleanup | components/ppool/src/ppool_queue.c:114-127 | The nodes are released and an empty, usable queue remains. |
| PoolQueue.Destroy | components/ppool/src/ppool_queue.c:129-146 | Releases every node once and then the queue; a null queue is left alone. |
| PoolQueue.AddThenDrain | components/ppool/src/ppool_queue.c:70-112 | Fresh nodes added in any order to an empty queue and then drained come out as the stable sort by priority of what was added. |
| PoolQueue.Play | components/ppool/src/ppool_queue.c:70-112 | Any sequence of additions and removals, mixed, leaves in the linked list and takes out of it the nodes that the same sequence leaves in and takes out of a queue of items. |
| Pool.ExclusiveStep | components/ppool/src/ppool.c:28-35 | Every step keeps: the threads inside the critical section are exactly the owner of the mutex. |
| Pool.QueueTouchedUnderLock | components/ppool/src/ppool.c:27-35 | Whoever changes the list holds the mutex. |
| Pool.AwakeStep | components/ppool/src/ppool.c:132-135 | No lost wake-up: every step keeps that no worker sleeps while a task is queued, except between an insertion and its broadcast. |
| Pool.ServedStep | components/ppool/src/ppool.c:30-39 | A worker that leaves the waiting loop finds a task: the branch for a null task is never taken. |
| Pool.AccountedStep | components/ppool/src/ppool.c:33-33 | Every step keeps: each accepted task is once in the queue or once among those taken. |
| Pool.HeldOrFreedStep | components/ppool/src/ppool.c:33-44 | Every step keeps: what was taken is in one worker's hand or freed, and what was executed is about to be freed or freed. |
| Pool.NoOvertakingStep | components/ppool/src/ppool_queue.c:99-112 | Every step keeps: whatever has left the queue was preceded by every earlier task that is at least as urgent. |
| Pool.Reachable | components/ppool/src/ppool.c:20-46 | The whole invariant holds in every state reachable from the start, for any number of threads and any interleaving. |
| Pool.NoLostWakeUp | components/ppool/src/ppool.c:30-32 | In every run, while a task is queued and no producer stands between insertion and broadcast, no worker is asleep. |
| Pool.NullNeverTaken | components/ppool/src/ppool.c:33-39 | In every run, what a worker comes back with is an accepted task, never null. |
| Pool.ExactlyOnce | components/ppool/src/ppool.c:20-46 | Each accepted task is in exactly one of queue, hand and freed, nothing else is, and it has been executed at most once, exactly once when it is about to be freed or freed. |
| Pool.TakenInOrder | components/ppool/src/ppool_queue.c:70-112 | No task is taken twice, and if A was inserted before B and is at least as urgent, B is never taken before A. |
| Pool.QueuedInOrder | components/ppool/src/ppool_queue.c:16-29 | From any reachable state on: of two waiting tasks the more urgent one, or the earlier of equals, is taken first, whatever is added and whoever runs in between. |
| Pool.UrgentFirst | components/ppool/src/ppool.c:20-46 | The same for every run from the start: an urgent task overtakes a less urgent one that was inserted earlier and still waits; with one worker it is also executed first. |
| Pool.ExecutedInOrder | components/ppool/src/ppool.c:27-45 | With one worker the same order holds for the executions. |
| Pool.QueueOfRun | components/ppool/src/ppool.c:20-46 | In every run, queue and dequeues are what the insertions and dequeues of the run make of a queue of items that starts empty, which is what PoolQueue.Play shows of the linked list. |
| Pool.OfferedTasks | components/ppool/src/ppool.c:119-138 | In every run the tasks of the valid calls (an entry, a priority not below zero, memory granted) are, as a multiset, those inserted and those their callers still carry: nothing is changed, dropped or made up at the door. |
| Pool.OfferedInserted | components/ppool/src/ppool.c:119-138 | When no caller is inside a call, exactly the offered tasks have been inserted. |
| PoolProgress.CanStep | components/ppool/src/ppool.c:27-35 | With at least one worker and a queued task, in every reachable state some thread can take a step of its own. |
| PoolProgress.BacklogFalls | components/ppool/src/ppool.c:20-46 | While a task is queued every step but a new call lowers a measure, spurious wake-ups included. |
| PoolProgress.QueueEmpties | components/ppool/src/ppool.c:20-46 | However the scheduler chooses, without new calls the queue is empty after at most that many steps. |
| PoolProgress.WorkFalls | components/ppool/src/ppool.c:20-46 | Every step of the pool's own lowers a second measure, also with an empty queue; a spurious wake-up adds at most four. |
| PoolProgress.RunEnds | components/ppool/src/ppool.c:20-46 | Without new calls a run has at most that many steps, plus five for each spurious wake-up. |
| PoolProgress.RestMeansIdle | components/ppool/src/ppool.c:30-32 | The pool has nothing left to do exactly when the queue is empty, all workers sleep and all producers have returned. |
| PoolProgress.RestMeansDone | components/ppool/src/ppool.c:39-44 | Then every accepted task was executed exactly once and its node freed exactly once. |
| PoolProgress.OfferedExecuted | components/ppool/src/ppool.c:20-138 | From end to end: at rest, the executed tasks are, as a multiset, exactly the tasks that the valid calls offered. |
| NodeNames.NameLen | core/runtime/src/node_registry.c:10-17 | The scan stops within the readable memory, at the first NUL or after 32 characters. |
| NodeNames.NameValid | core/runtime/src/node_registry.c:19-25 | Valid exactly when there is a name with 1 to 31 characters before the NUL. |
| NodeNames.SameName | core/runtime/src/node_registry.c:78-78 | The bounded comparison holds exactly when the two memory areas stand for the same key. |
| NodeDirectory.ApplyKeeps | core/runtime/src/node_registry.c:118-181 | Every operation keeps: keys valid, pairwise different, listed once, and no more than the capacity. |
| NodeDirectory.RegisterUnregister | core/runtime/src/node_registry.c:118-157 | A successful registration followed by the removal of that name gives back the same directory. |
| NodeDirectory.WithoutAt | core/runtime/src/node_registry.c:145-151 | Removing a key closes exactly one gap in the order. |
| NodeDirectory.History | core/runtime/src/node_registry.c:118-181 | After any run a node is known exactly when its last registration was not followed by a removal, and then its data are those of that registration with the last state and the last heartbeat set since; operations on other names have no effect on it. |
| NodeDirectory.ListedByRegistration | core/runtime/src/node_registry.c:100-157 | After any run the enumeration is in the order of registration of the surviving nodes. |
| NodeDirectory.LiveAgrees | core/runtime/src/node_registry.c:118-157 | The names known after a run are those that its successful events leave: added by a registration, removed by an unregistration, none after a clear. |
| NodeDirectory.CodeOfEvent | core/runtime/src/node_registry.c:118-181 | Every code of a run from the events before it: Register -1 for no record or an invalid name, else -2 when as many names live as there is room, else -4 for a living name, else 0; Unregister -1, -3 or 0; UpdateState and Heartbeat -3 or 0. |
| NodeRegistry.RecordCopy | core/runtime/src/node_registry.c:27-38 | The name is cut to 31 characters and NUL-padded, everything else is copied. |
| NodeRegistry.SlackZeroed | core/runtime/src/node_registry.c:52-52 | Every slot beyond the last node is zero in all its fields. |
| NodeRegistry.Registry.Init | core/runtime/src/node_registry.c:40-53 | Refuses null storage and capacity 0 without a change; otherwise all slots within the capacity are zero and the directory is empty. |
| NodeRegistry.Registry.Clear | core/runtime/src/node_registry.c:55-63 | Empties the directory and zeroes all slots. |
| NodeRegistry.Registry.Find | core/runtime/src/node_registry.c:70-83 | Finds a slot exactly when the directory's map knows the key, and the slot is that key's with that data. |
| NodeRegistry.Registry.At | core/runtime/src/node_registry.c:100-107 | Enumerates the directory in its order, and nothing from the count on. |
| NodeRegistry.Registry.Register | core/runtime/src/node_registry.c:118-134 | Directory and result code are those of the map operation, errors in the order EINVAL, ENOSPC, EDUP; all slots keep showing the directory. |
| NodeRegistry.RemovedImage | core/runtime/src/node_registry.c:145-149 | Shifting and zeroing turns the storage that shows the old directory into the one that shows the directory without the node. |
| NodeRegistry.Registry.Unregister | core/runtime/src/node_registry.c:136-157 | Directory and result code are those of the map operation; the storage shows the new directory, the freed slot being zero. |
| NodeRegistry.Registry.UpdateState | core/runtime/src/node_registry.c:159-169 | Sets the state of the named node and nothing else; ENOTFOUND also for an invalid name. |
| NodeRegistry.Registry.Heartbeat | core/runtime/src/node_registry.c:171-181 | Sets the heartbeat of the named node and nothing else; ENOTFOUND also for an invalid name. |
| NodeRegistry.PerformAll | core/runtime/src/node_registry.c:40-181 | After any run of operations from Init the storage shows the directory that the run leaves, with the codes returned on the way. |
| NodeRegistry.RegisterThenUnregister | core/runtime/src/node_registry.c:27-157 | Registering a node and unregistering its name restores every field of every record of the storage; a refused registration changes nothing. |

## Left out

- `platform/hal`, `components/netdev`, `components/logging`, `components/common`: system calls and devices whose behaviour is not in the repository.
- `core/runtime/src/fsm.c` and the example programs are not modelled.
- Null data pointers with length 0 and calls that break the C contracts (out-of-range lengths, an output buffer inside the context's state) are outside the model; input is a sequence and cannot alias what is written.
- MD5's array `count[2]` is two fields, and the 64-bit counter of SHA-256 and the counter words are numbers with the modulo written out.
- The sine table of MD5 is not derived from the sine function; its values are held by the published digest of "abc", in which each of the 64 is used once.
- Pool: the boolean that `ppool_add` returns is no part of the state; it is true for exactly the calls that `Pool.Offered` lists.
- The lazily built CRC tables are modelled for one thread; races on the ready flags are not.
- Crc32.CrcIsFrameCheck: for messages of at least four bytes, as the standard's rule complements the first 32 bits of a frame; Crc32.RunDivides covers shorter ones.
- `ppool_init` only fixes the initial state; its error paths, `ppool_destroy`, thread cancellation and the user-level lock are pthread behaviour outside the protocol. `pthread_create` may fail for some threads: the number of workers is arbitrary.
- Tasks are opaque and return; a task that itself calls `ppool_add` is a producer of its own in the model.
- The list length `len` is an unbounded integer; 2^31 queued tasks are not reached.
- In `Pool` node addresses that the allocator hands out again are different tickets.
- With several workers the order of dequeues is proved, not that of executions, which are concurrent.
- The registry is an object that exists: the branches for a null registry pointer (EINVAL, ENOTFOUND, count 0, null) have no counterpart.
- Records are values, so `register` cannot be given a pointer to the registry's own free slot: there the copy wipes its source first, and a nameless record is stored with result OK.
- `find_const` and `at_const` repeat `find` and `at`. Writes of a caller through a returned record pointer are not modelled, nor are padding bytes of the C struct.
- Kind and state are any integers, as a C enum can hold; `user_data` is an opaque address.
