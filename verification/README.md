# D2SC in Dafny: its AES library and its NF manager

This project models two parts of D2SC, a framework that runs network functions (NFs) in
service chains on top of DPDK, and proves what they are meant to do.

**The AES library** of the encryptor example (`examples/encryptor/aes.c`). `Bytes`,
`GaloisField`, `SubstitutionBox` and `ColumnMatrix` hold the arithmetic and the tables;
`Cipher` is the cipher of FIPS 197 as functions on four columns; `KeyExpansion` its key
schedule; `Cbc`, `Counter` and `Ctr` the modes of NIST SP 800-38A; `Ccm` the library's form of
NIST SP 800-38C. The functions of the C file that work in place are methods on arrays in
`BlockCipher`, `Buffers`, `CbcModes`, `Ctr`, `CcmModes` (and `KeyExpansion.AesKeySetup`,
`Counter.IncrementIvInPlace`), each proved to compute the function of the same name. What
these functions mean byte by byte, without their recursion, is said in `RoundBytes` for the
rounds and the key schedule and in `CcmBytes` for CCM; `Remainders` holds division. The
theorems stack: table facts give inverse steps, these the inverse cipher, that the round trips
of the modes, and those the round trip of CCM.

**The manager as a state machine.** `Registry` holds the records NFs and manager share and
the message handlers; `Lifecycle` adds the steps of the NFs, of the scale thread and of the
statistics, and proves that every step keeps one invariant; `Runs` draws the conclusions for
whole runs; `Duplicates` treats what an instance reads from its queue, in one go and in any run.
`SharedMemory` is the memory as arrays, which `Master`, `NfRuntime`, `Scale`, `ScaleThread`,
`ScalePass` and `Router` update or read in place as the code does. `ScaleSteps` is a pass of the scale thread as a
function, `PassSteps` takes it apart into steps of the system (`Paths`), `Overload` says what
the overload check leaves on every slot, `PassSlots` what a whole pass leaves, and `LoadCheck`
what the test of the load check means and whose load it tests.
`Witnesses` and `Shortfalls` lead runs to the states in which the code falls short. `TxThreads`
is the split of the instances among the TX threads.

**The packet path.** `ServiceChain` holds chains and the walk along them; `PacketPath` the
calls on buffers, bounded rings and ports, as the owner of one buffer queue sees them, with
histories of what was freed, lost, sent, and put into each buffer; `PacketBuffers` the same
calls in place on arrays. `Unions` says which batches read the union of a buffer queue only as it
was written. `Conservation`, `Delivery`, `Outbound` and `Losses` say what a call
does with each packet, `Rings` exactly what rings, buffers and ports hold afterwards, and `Progress`
what a turn takes, counts and writes; `Lanes` and `Bags` hold the notion of order. `PacketCalls` and `Owners`
put all RX threads, TX threads and instances together, each with its own buffer queue and all
with shared rings, ports and meta data; `Ordering`, `Accounts` and `PacketRuns` prove
conservation, order and accounts for every interleaving. `Forwarding` ties this to the
manager's invariant and to the chains, and `Journey` follows one packet from end to end.

The theorems about the packet path ask of every batch that its packets can be routed, because
the search for an instance does not end otherwise (`Forwarding.SettledRoutes`), and that it
follows no wrong pointer (`Unions.ReadsLiveIff`); `Unions.SoundBatchIff` shows that their
condition on a transmit batch is exactly this.

What the code does differently from its documentation or from the standards is kept as it is
and stated exactly:

- CCM pads associated data that ends at a block boundary with a whole block, and formats it
  even when there is none; only 16 bits of the payload length are stored. The format still
  determines its input for every length (`Ccm.FormattedParses`).
- The scratch buffer of `aes_encrypt_ccm` is one byte short for one pair of remainders
  (`Ccm.AllocationSuffices`). The methods take the number of bytes malloc really gives as a
  parameter, which must be enough.
- A MAC of 16 bytes leaves the counter where it is, so the first payload block shares the
  MAC's counter block (`Ccm.PayloadAvoidsMacCounter`).
- `aes_decrypt_ccm` refuses an empty payload (`CcmModes.EncryptThenDecrypt`), and, unlike
  encryption, checks neither the nonce length nor the MAC length before it writes to blocks of
  16 bytes (`CcmModes.LocalsRespectedIff`).
- NFs may name any nonzero type number on the command line, but the type map has 16 rows: the
  handler of a ready message leaves its arrays for a type number of 16 or more, as it does when
  the row is full (`Lifecycle.HandlersAreSafe`, `Shortfalls.ReadyWithoutRow`).
- An NF may start with max_load 0, by which the overload check divides once the NF has reported a
  service time (`Overload.DividesByNoZeroIff`, `Overload.RunRated`,
  `Shortfalls.UnlimitedDivides`).
- The number of instances an overload calls for is cut to 16 bits, so the answer is wrong when
  load / max_load reaches 65536 (`Scale.OverloadSplit`); and a request to wake no instance, which
  arises only from that cut, can wake all (`Scale.WokenCount`).
- The load check computes in 16 bits, so that an overloaded type can look as if it had capacity
  to spare and lose an instance (`LoadCheck.SpareMeansCapacityIff`,
  `Shortfalls.OverloadLooksSpare`). Its counter is shared by all types.
- Raising the block flag while bk_flag is 2, and stopping an instance that is blocked or never
  was ready, make the counters wrong (`Runs.RaiseKeepsCountersIff`,
  `Runs.StopKeepsCountersIff`; runs to such states in `Shortfalls.WakingRaised`,
  `Shortfalls.BlockedStop`, `Shortfalls.UnreadyStop`). In a settled state the load check never
  does the former (`ScaleThread.SettledBlock`).
- The search for an unblocked instance goes on forever when there is none
  (`Router.LoopEndsIff`, `Router.SettledTerminates`, `Shortfalls.WhollyBlockedSearch`), and the
  search for an instance to block leaves its row when none runs (`ScaleThread.ChoiceExists`,
  `Shortfalls.BothBlockingSearch`).
- A packet from the NIC is handed to an instance of the type that its first entry names (type 0 for
  an empty chain), if there is one, even when the action of that entry is OUT or DROP
  (`Journey.VisitsIff`).
- The queues of instances store a tx buffer where those of the manager store a TX thread, but a
  packet that an instance processes itself and returns with NEXT, and whose next entry is OUT to
  an existing port, is put away as if the queue were the manager's (`Unions.ReadsLiveIff`,
  `Unions.WrongMemberRead`). Together with the guards against losses this is the exact condition
  for a batch to go well (`Unions.FineIff`).
- act_drop never grows, because `d2sc_pkt_drop` returns 1 (`PacketRuns.RunAccounts`).
- A batch with an invalid action before its end, a port number that is not below the number of
  ports, or NEXT where the chain has no drop, instance or such a port, loses packets
  (`Losses.TxBatchLosesIff`). Port numbers are compared with the number of ports, while the
  flush goes by port ids: packets for a listed port are lost, and others wait forever, unless the
  ids are 0, 1, 2 and so on (`Losses.PortsMatchIff`, `Losses.PortIdsAreNotNumbers`).
- `d2sc_sc_merge_entry` lets two appends through that write outside its array
  (`ServiceChain.AppendLeavesArrayIff`).

The runs of the manager are over the steps of `Lifecycle.Enabled`, which states what is assumed
of them: ids are assigned by the manager, a ready message is handled only when the type has a row
with room, the block flag is raised only on a running instance whose bk_flag is not 2, and a stop is
a direct call of `d2sc_nfrt_stop` by the program of a ready, running instance that is not
blocked. The other calls of `d2sc_nfrt_stop` are not steps: the one at the end of
`d2sc_nfrt_run_callback` comes after shutdown has set bk_flag to 2, and those of the example
programs come before the instance was ready; `Runs.StopKeepsCountersIff` says what the handler
does then.

## Model

| member | source | states |
|---|---|---|
| `GaloisField.TableIsMultiplication` | examples/encryptor/aes.c:113-242 | Every entry of the table is the product, in GF(2^8) as section 4.2 of FIPS 197 defines it, of its row number and the constant of its column (02, 03, 09, 0b, 0d, 0e) |
| `GaloisField.MulLinear` | examples/encryptor/aes.c:113-242 | Multiplication by any constant distributes over XOR, so every column of the table is XOR-linear |
| `GaloisField.MulCommutes` | examples/encryptor/aes.c:113-242 | Multiplication in GF(2^8) commutes |
| `GaloisField.MulAssociates` | examples/encryptor/aes.c:113-242 | Multiplying by b and then by c is multiplying by the product of b and c |
| `SubstitutionBox.SubByteIsAffineOfInverse` | examples/encryptor/aes.c:69-86 | The S-box sends x to s just when s is the affine image of an inverse of x in GF(2^8) (zero for zero), section 5.1.1 of FIPS 197 |
| `SubstitutionBox.InverseExists` | examples/encryptor/aes.c:69-86 | Every nonzero byte has an inverse in GF(2^8) |
| `SubstitutionBox.InverseIsUnique` | examples/encryptor/aes.c:69-86 | No nonzero byte has two inverses in GF(2^8) |
| `SubstitutionBox.InvSubByteUndoes` | examples/encryptor/aes.c:69-106 | The inverse S-box undoes the S-box on all bytes |
| `SubstitutionBox.SubByteUndoes` | examples/encryptor/aes.c:69-106 | The S-box undoes the inverse S-box on all bytes |
| `ColumnMatrix.InvMixUndoes` | examples/encryptor/aes.c:768-946 | The matrix of section 5.3.3 of FIPS 197 undoes that of section 5.1.3 on every column |
| `ColumnMatrix.MixUndoes` | examples/encryptor/aes.c:768-946 | The matrix of section 5.1.3 of FIPS 197 undoes that of section 5.3.3 on every column |
| `Cipher.ScrambleUndone` | examples/encryptor/aes.c:664-758 | InvShiftRows and InvSubBytes undo SubBytes and ShiftRows on every state, and the other way round |
| `Cipher.MixColumnsUndone` | examples/encryptor/aes.c:768-946 | InvMixColumns and MixColumns undo each other on every state |
| `Cipher.AddRoundKeyUndone` | examples/encryptor/aes.c:615-656 | AddRoundKey with the same words undoes itself |
| `Cipher.RoundsAgree` | examples/encryptor/aes.c:952-1092 | Encryption and decryption perform the same number of rounds just for keysize 128 and keysize at least 192; their tests of keysize differ between 129 and 191 and below 128 |
| `Cipher.BlockRoundTrip` | examples/encryptor/aes.c:952-1092 | For every block and every array of schedule words, decryption undoes encryption and encryption undoes decryption |
| `RoundBytes.AddRoundKeyCell` | examples/encryptor/aes.c:615-656 | AddRoundKey adds to row r of column c byte r, counted from the most significant one, of word at + c of the schedule |
| `RoundBytes.ShiftRowsCell` | examples/encryptor/aes.c:709-758 | ShiftRows moves row r left by r places, InvShiftRows right by r places |
| `RoundBytes.MixRow` | examples/encryptor/aes.c:768-856 | MixColumns multiplies the column, as a polynomial modulo x^4 + 1, by {03}x^3 + {01}x^2 + {01}x + {02}, section 5.1.3 of FIPS 197 |
| `RoundBytes.FirstCell` | examples/encryptor/aes.c:952-1023 | Before the first round, the byte in row r and column c is byte r + 4c of the input plus byte r of word c |
| `RoundBytes.RoundCell` | examples/encryptor/aes.c:952-1023 | One full round as one formula: each byte of the state is a sum of multiples of four substituted bytes, from all rows and the columns c, c+1, c+2, c+3, and of a byte of word 4n + c |
| `RoundBytes.LastCell` | examples/encryptor/aes.c:952-1023 | Byte r + 4c of the ciphertext is the substituted byte from row r and column c + r plus byte r of word 4n + c, with n the number of rounds |
| `RoundBytes.LastWordsShow` | examples/encryptor/aes.c:952-1023 | Changing the last four words of the schedule changes the ciphertext by exactly the bytes by which they differ, column by column |
| `RoundBytes.FirstWordsShow` | examples/encryptor/aes.c:952-1023 | Changing the first four words of the schedule is the same as changing the input by their bytes |
| `BlockCipher.AddRoundKey` | examples/encryptor/aes.c:615-656 | The in-place step adds to each element of the matrix its byte of the key word of its column, and is the AddRoundKey of the standard on the state read as columns |
| `BlockCipher.SubBytes` | examples/encryptor/aes.c:664-682 | The in-place substitution is the SubBytes of the standard |
| `BlockCipher.InvSubBytes` | examples/encryptor/aes.c:684-702 | The in-place substitution is the InvSubBytes of the standard |
| `BlockCipher.ShiftRows` | examples/encryptor/aes.c:709-732 | The rotations of rows through a temporary are the ShiftRows of the standard |
| `BlockCipher.InvShiftRows` | examples/encryptor/aes.c:735-758 | The rotations back are the InvShiftRows of the standard |
| `BlockCipher.MixColumns` | examples/encryptor/aes.c:768-856 | The unrolled table look-ups compute the matrix product of section 5.1.3 of FIPS 197 on each column |
| `BlockCipher.InvMixColumns` | examples/encryptor/aes.c:858-946 | The unrolled table look-ups compute the matrix product of section 5.3.3 of FIPS 197 on each column |
| `BlockCipher.MixRows` | examples/encryptor/aes.c:768-856 | The table expressions of the four rows are the entries of the matrix product |
| `BlockCipher.AesEncrypt` | examples/encryptor/aes.c:952-1023 | The unrolled rounds on the 4x4 array leave in the output the recursive cipher of section 5.1 of FIPS 197 applied to the input, and change nothing else |
| `BlockCipher.AesDecrypt` | examples/encryptor/aes.c:1025-1092 | The unrolled inverse rounds leave the inverse cipher of section 5.3 of FIPS 197 applied to the input, and change nothing else |
| `KeyExpansion.SubWordIsBytewise` | examples/encryptor/aes.c:564-573 | SubWord, which adds up shifted look-ups, applies the S-box to each of the four bytes |
| `KeyExpansion.RconIsPower` | examples/encryptor/aes.c:580-583 | Entry k of the round-constant table is x^k in the first byte, for every entry |
| `KeyExpansion.LibraryTemp` | examples/encryptor/aes.c:598-604 | The rotation, substitution and Rcon[(idx-1)/Nk] at a multiple of Nk give the word of the standard, and the index into Rcon is in range |
| `KeyExpansion.AesKeySetup` | examples/encryptor/aes.c:578-605 | The loops fill the array with the expanded key of section 5.2 of FIPS 197 and leave the rest; an unknown key size changes nothing |
| `KeyExpansion.WindowDetermines` | examples/encryptor/aes.c:598-604 | Two schedules that agree on some Nk consecutive words agree everywhere |
| `KeyExpansion.RewindFindsStart` | examples/encryptor/aes.c:598-604 | Running the recurrence backwards from any Nk consecutive words gives the first Nk words |
| `KeyExpansion.KeyIsRecoverable` | examples/encryptor/aes.c:578-605 | From any Nk consecutive words of an expanded key the original key bytes are recovered |
| `RoundBytes.SizesOf` | examples/encryptor/aes.c:578-596 | A key of keysize bits has keysize / 32 words, and there are six rounds more than words, figure 4 of FIPS 197 |
| `RoundBytes.KeyBytes` | examples/encryptor/aes.c:598-599 | Byte r of word i of the schedule is byte 4i + r of the key, for the words of the key |
| `RoundBytes.NextWordBytes` | examples/encryptor/aes.c:600-604 | Byte r of every later word is that of the word Nk before plus byte r + 1 modulo 4 of the previous word substituted, with x^(i/Nk - 1) added to the first byte, at multiples of Nk; plus byte r substituted at i mod 8 = 4 for 256 bits; plus byte r otherwise |
| `Cbc.CbcRoundTrip` | examples/encryptor/aes.c:257-326 | CBC decryption undoes CBC encryption for any number of blocks, key and IV |
| `Cbc.CbcDecryptThenEncrypt` | examples/encryptor/aes.c:257-326 | CBC encryption undoes CBC decryption |
| `Cbc.CbcDependsOnTwoBlocks` | examples/encryptor/aes.c:305-326 | A recovered block is the same for all ciphertexts that agree on that block and the one before |
| `Cbc.CbcDetectsOwnBlock` | examples/encryptor/aes.c:305-326 | Changing a ciphertext block always changes its own plaintext block |
| `Cbc.CbcChains` | examples/encryptor/aes.c:257-278 | Ciphertext block j is the encryption of plaintext block j xor ciphertext block j - 1, or the IV for j = 0, byte by byte |
| `Cbc.MacIsLastCipherBlock` | examples/encryptor/aes.c:280-303 | On nonempty input the MAC is the last block CBC encryption gives |
| `Cbc.MacSplits` | examples/encryptor/aes.c:280-303 | The MAC of two parts is the MAC of the second part with the MAC of the first as IV |
| `CbcModes.AesEncryptCbc` | examples/encryptor/aes.c:257-278 | The loop computes the CBC chain, in place as well; a length that is no multiple of 16 is refused and changes nothing |
| `CbcModes.AesEncryptCbcMac` | examples/encryptor/aes.c:280-303 | The loop leaves the last chaining block in the output, and for no input whatever its local block held before; a bad length is refused and changes nothing |
| `CbcModes.AesDecryptCbc` | examples/encryptor/aes.c:305-326 | The loop leaves D(C_j) xor C_{j-1} for every block, in place as well; a bad length is refused and changes nothing |
| `Counter.IncrementAddsOne` | examples/encryptor/aes.c:331-341 | Counting up adds one modulo 256^n to the big-endian value of the n bytes |
| `Counter.IncrementIvInPlace` | examples/encryptor/aes.c:331-341 | The loop from the last byte down with its early exit counts up the last c bytes and leaves the others |
| `Counter.CounterBlockNext` | examples/encryptor/aes.c:331-341 | Counting up turns the n-th counter block into the next one |
| `Counter.CounterBlocksRepeat` | examples/encryptor/aes.c:331-341 | The m-th and n-th counter blocks are equal just when m and n agree modulo 256^c, so 256^c successive ones are distinct |
| `Ctr.CtrInvolution` | examples/encryptor/aes.c:345-372 | CTR undoes itself |
| `Ctr.CtrSplits` | examples/encryptor/aes.c:345-366 | A message cut at any block boundary can be processed in two parts, the second from the IV advanced by the number of blocks |
| `Ctr.CtrOfPrefix` | examples/encryptor/aes.c:345-366 | The result on a prefix is the prefix of the result, at any length |
| `Ctr.CtrBytes` | examples/encryptor/aes.c:345-366 | Byte i is in[i] xor byte i mod 16 of the encryption of the block that stands for the number iv + i / 16 modulo 2^128 |
| `Ctr.AesEncryptCtr` | examples/encryptor/aes.c:345-366 | For every length, byte i becomes in[i] xor E(iv + i/16)[i mod 16], with iv a number modulo 2^128; in place as well; other bytes stay |
| `Ctr.AesDecryptCtr` | examples/encryptor/aes.c:368-372 | Decryption is the same keystream XOR, as CTR decryption in section 6.5 of NIST SP 800-38A |
| `Ccm.LengthOfFormatted` | examples/encryptor/aes.c:516-554 | The formatted length is 16 + 16*((a+2)/16+1) + 16*ceil(p/16) |
| `Ccm.AllocationSuffices` | examples/encryptor/aes.c:396-396 | a+p+48 bytes hold the formatted message just when not (a mod 16 = 14 and p mod 16 = 1); one byte more always does |
| `Ccm.FormattedParses` | examples/encryptor/aes.c:516-554 | Reading the format back gives MAC length, nonce, associated data and payload, for every payload length although only 16 bits of it are stored |
| `Ccm.FormattedInjective` | examples/encryptor/aes.c:516-554 | Two inputs with the same formatted string are equal |
| `Ccm.OpenUndoesSeal` | examples/encryptor/aes.c:378-506 | A sealed message decrypts to its payload and is accepted |
| `Ccm.AcceptsExactlySealed` | examples/encryptor/aes.c:441-506 | A ciphertext is accepted just when it is the encryption of some payload, and then of the payload recovered |
| `Ccm.PayloadCounterIsOffset` | examples/encryptor/aes.c:414-431 | The counter the payload starts from is the MAC's counter plus one, or the MAC's counter itself when mac_len is 15 or more |
| `Ccm.PayloadAvoidsMacCounter` | examples/encryptor/aes.c:414-431 | Payload block j, of any payload of 32-bit length, avoids the counter block of the MAC just when mac_len is at most 14 or j is not 0 |
| `Ccm.PayloadCounterLayout` | examples/encryptor/aes.c:414-431 | With mac_len at most 14, payload block j uses flags, nonce and the number j + 1, as long as it fits the bytes the nonce leaves |
| `CcmBytes.FirstBlockLayout` | examples/encryptor/aes.c:516-527 | The first formatted block holds flags with bit 6 for associated data, the nonce, zeros up to byte 14, and the payload length modulo 65536 in bytes 14 and 15 |
| `CcmBytes.FormattedLayout` | examples/encryptor/aes.c:516-554 | Every byte of the formatted string: first block, two length bytes, associated data, zeros up to the block boundary, payload, zeros to the end |
| `CcmBytes.PayloadIsNumbered` | examples/encryptor/aes.c:414-431 | Payload block j is encrypted under flags, nonce and the number j + 1, or j for a MAC of more than 14 bytes, as long as it fits |
| `CcmBytes.NumberedBlocksDiffer` | examples/encryptor/aes.c:509-514 | The blocks of two nonces and two numbers that fit are equal just when nonces and numbers are |
| `CcmBytes.NoncesShareNoBlock` | examples/encryptor/aes.c:509-514 | No counter block that encrypts payload or tag under one nonce encrypts payload or tag under another, as long as the block numbers fit the bytes the nonces leave |
| `CcmBytes.SealBytes` | examples/encryptor/aes.c:378-437 | Each byte of the sealed message: payload byte xor keystream byte of flags, nonce and block number; then byte of the last CBC block of the formatted string under a zero IV xor keystream byte of number 0 |
| `CcmBytes.RecoveredBytes` | examples/encryptor/aes.c:441-506 | Each byte decryption recovers, whether the tag is right or not, is the ciphertext byte xor that keystream byte |
| `CcmModes.CcmPrepareFirstCtrBlk` | examples/encryptor/aes.c:509-514 | The counter block holds (14 - nonce_len) mod 8, the nonce, and zeros |
| `CcmModes.CcmPrepareFirstFormatBlk` | examples/encryptor/aes.c:516-527 | The first formatted block holds flags, nonce, zeros and the low 16 bits of the payload length |
| `CcmModes.CcmFormatAssocData` | examples/encryptor/aes.c:529-541 | The buffer grows by length, associated data and padding; what was there stays |
| `CcmModes.CcmFormatPayloadData` | examples/encryptor/aes.c:543-554 | The buffer grows by payload and padding; what was there stays |
| `CcmModes.AesEncryptCcm` | examples/encryptor/aes.c:378-437 | Returns TRUE just for a valid MAC length, nonce length and associated-data length with memory; then the output is the sealed message; otherwise nothing changes |
| `CcmModes.AesDecryptCcm` | examples/encryptor/aes.c:441-506 | Returns TRUE just when the ciphertext is longer than the MAC and there is memory, for lengths that respect its local blocks; mac_auth says whether the ciphertext is authentic; the plaintext is the recovered one, or all zeros when it is not |
| `CcmModes.LocalsRespectedIff` | examples/encryptor/aes.c:441-506 | Decryption, which checks neither length, stays inside its local blocks just when nonce_len is at most 15 and mac_len at most 16 |
| `CcmModes.EncryptThenDecrypt` | examples/encryptor/aes.c:378-506 | Decryption of the output of encryption returns the payload and its length with mac_auth TRUE, for every valid input with payload_len at least 1, and refuses it just when payload_len is 0 |
| `TypeMap.RemoveFromRowIsWithout` | src/d2sc_mgr/d2sc_nf.c:227-242 | Removal from a row of distinct ids takes out exactly the one id and keeps the order of the others |
| `Lifecycle.HandlersAreSafe` | src/d2sc_mgr/d2sc_nf.c:101-131 | In every reachable state, no handler follows a null pointer or leaves an array, just when an instance that becomes ready has a type number below 16 and the row of the type has room |
| `Lifecycle.HandleStartingKeeps` | src/d2sc_mgr/d2sc_nf.c:153-181 | Assigning an id keeps the invariant |
| `Lifecycle.HandleReadyKeeps` | src/d2sc_mgr/d2sc_nf.c:184-203 | Making an instance ready keeps the invariant |
| `Lifecycle.HandleStoppingKeeps` | src/d2sc_mgr/d2sc_nf.c:206-270 | Taking a stopped instance out keeps the invariant |
| `Lifecycle.HandleBlockingKeeps` | src/d2sc_mgr/d2sc_nf.c:272-292 | Blocking an instance for good keeps the invariant |
| `Lifecycle.HandleStaleBlockingKeeps` | src/d2sc_mgr/d2sc_nf.c:272-292 | A block message of an instance that is not about to block changes nothing |
| `Lifecycle.HandleRunningKeeps` | src/d2sc_mgr/d2sc_nf.c:294-313 | In every reachable state a run message finds its instance RUNNING with bk_flag 2, and handling it keeps the invariant |
| `Lifecycle.PollKeeps` | src/d2sc_nfrt/d2sc_nfrt.c:427-468 | Reading any scale message, wanted or repeated, keeps the invariant |
| `Lifecycle.SameProtocolKeeps` | src/d2sc_mgr/d2sc_scale.c:35-97 | Overload marks, packet rates and scale messages never disturb the invariant |
| `Lifecycle.RaiseBlockKeeps` | src/d2sc_mgr/d2sc_scale.c:193-199 | Raising the block flag of an instance that is not blocked keeps the invariant |
| `Runs.RunKeepsInv` | src/d2sc_mgr/d2sc_nf.c:89-132 | The invariant holds in every state of every run, whatever the interleaving of NFs, scale thread and master thread, the writes of overload marks, scale_num and packet rates included |
| `Runs.StepKeeps` | src/d2sc_mgr/d2sc_nf.c:89-132 | Every single enabled step keeps the invariant |
| `Runs.StartOutcome` | src/d2sc_mgr/d2sc_nf.c:153-181 | A start is granted the requested id just when no running instance has it, and without a request an id just when next_inst_id has not run out and some slot from there on is not running; a refused start changes no slot, a granted one only the slot of its id |
| `Runs.HandshakeSafe` | src/d2sc_nfrt/d2sc_nfrt.c:495-545 | bk_flag 0 implies RUNNING; BLOCKED with bk_flag 1 implies a queued BLOCKING message; exactly one RUNNING message is queued when the instance is RUNNING with bk_flag 2, none otherwise |
| `Runs.CountersAgree` | src/d2sc_mgr/d2sc_nf.c:184-313 | nfs_per_nt_num counts the registered instances of a type, nfs_per_nt_available those with bk_flag other than 2, their difference those with bk_flag 2, num_nfs the sum; the row lists each registered instance once, then zeros |
| `Runs.SettledCounts` | src/d2sc_mgr/d2sc_nf.c:272-313 | With no message queued, the instances whose status is BLOCKED are exactly those the two counters differ by |
| `Runs.ReadyAppends` | src/d2sc_mgr/d2sc_nf.c:184-203 | Becoming ready, with room in the row of the type, appends the id to the ids of the type |
| `Runs.StopCloses` | src/d2sc_mgr/d2sc_nf.c:206-242 | Stopping removes exactly the stopped id, keeps the order of the others, and leaves the other rows |
| `Runs.RecordsReturn` | src/d2sc_nfrt/d2sc_nfrt.c:209-219 | The record of an NF that got no id, or whose stop has been handled, is back in the pool for the next NF, and not before |
| `Runs.RaiseKeepsCountersIff` | src/d2sc_mgr/d2sc_scale.c:193-199 | Raising the block flag of a running instance keeps the counters right just when its bk_flag is not 2 |
| `Runs.StopKeepsCountersIff` | src/d2sc_mgr/d2sc_nf.c:206-242 | Handling a stop stays inside the type map and keeps the counters right just when the instance has been ready and is not blocked |
| `Runs.DrainSettles` | src/d2sc_mgr/d2sc_nf.c:89-132 | Handling the queued messages one by one keeps the invariant and empties the ring |
| `Duplicates.DuplicateHarmless` | src/d2sc_nfrt/d2sc_nfrt.c:427-468 | Whatever is queued for the manager: when an instance reads its scale messages in one go, one that repeats an earlier one, next to it or later, has no effect of its own once the answers are handled |
| `Duplicates.InertHarmless` | src/d2sc_nfrt/d2sc_nfrt.c:427-468 | Reading a message that would not be answered, or only with a copy of the last answer, leaves no trace but the shorter queue |
| `Duplicates.WakesUp` | src/d2sc_nfrt/d2sc_nfrt.c:456-462 | A blocked instance with a run message at the end of its queue runs again, and has reported it exactly once, when it has read the queue |
| `Duplicates.WokenOnce` | src/d2sc_nfrt/d2sc_nfrt.c:427-468 | In any run, whatever others do in between: after an instance has answered a SCALE_RUN, it answers no scale message at all until its bk_flag is raised again |
| `Duplicates.BlockedOnce` | src/d2sc_nfrt/d2sc_nfrt.c:427-468 | In any run: once the manager has taken an instance's bk_flag off 1, no SCALE_BLOCK is answered, however many copies are queued, until the flag is raised again |
| `Paths.PathKeeps` | src/d2sc_mgr/d2sc_nf.c:89-132 | A series of enabled steps keeps the invariant |
| `Shortfalls.UnreadyStop` | src/d2sc_mgr/d2sc_nf.c:224-226 | A run comes to an instance that has an id but was never ready; stopping it makes the counters wrong |
| `Shortfalls.BlockedStop` | src/d2sc_mgr/d2sc_nf.c:224-226 | A run comes to a blocked instance; stopping it makes the counters wrong |
| `Shortfalls.WakingRaised` | src/d2sc_mgr/d2sc_scale.c:193-199 | A run comes to an instance that is RUNNING with bk_flag 2; blocking it makes the counters wrong |
| `Shortfalls.WhollyBlockedSearch` | src/d2sc_nfrt/d2sc_sc.c:43-57 | A run comes to a settled state in which the only instance of a type is blocked; the search for an instance ends for no packet of the type |
| `Shortfalls.BothBlockingSearch` | src/d2sc_mgr/d2sc_scale.c:184-193 | A run comes to a state in which the fifth load check passes for a type of which no instance runs, so that the search for one to block leaves the row |
| `Shortfalls.ReadyWithoutRow` | src/d2sc_mgr/d2sc_nf.c:195-199 | A run comes to an instance of type 16 that reports ready; its handler would write outside the type map |
| `Shortfalls.UnlimitedDivides` | src/d2sc_mgr/d2sc_scale.c:58-63 | A run comes to a settled state in which a running instance has a service time and max_load 0, and the overload check divides by zero |
| `SharedMemory.Shared.constructor` | src/d2sc_mgr/main.c:245-245 | Start-up leaves an initial state: no instance, all flags zero, id 0 reserved |
| `Master.NextInstId` | src/d2sc_mgr/d2sc_nf.c:74-86 | The loop gives the first id from next_inst_id on whose slot is not running, the last id when all are, and MAX_NFS when next_inst_id has reached it; next_inst_id moves past it |
| `Master.NfStart` | src/d2sc_mgr/d2sc_nf.c:153-181 | The in-place handler performs the start step, with all its refusals |
| `Master.NfReady` | src/d2sc_mgr/d2sc_nf.c:184-203 | The in-place handler performs the ready step |
| `Master.NfStop` | src/d2sc_mgr/d2sc_nf.c:206-270 | The in-place handler with its search and shifting loops performs the stop step |
| `Master.FindId` | src/d2sc_mgr/d2sc_nf.c:227-231 | The search finds the first entry equal to the id, or runs to the end |
| `Master.CloseGap` | src/d2sc_mgr/d2sc_nf.c:234-241 | The shifting loop moves the run of nonzero entries after the gap up by one, and no other row |
| `Master.NfBlock` | src/d2sc_mgr/d2sc_nf.c:272-292 | The in-place handler performs the block step; when it takes effect, bk_flag is 2 and the record the slot points to says BLOCKED |
| `Master.NfRun` | src/d2sc_mgr/d2sc_nf.c:294-313 | The in-place handler performs the run step; when it takes effect, bk_flag is 0 and the record the slot points to says RUNNING |
| `Master.NfSrvTime` | src/d2sc_mgr/d2sc_nf.c:315-326 | The in-place handler performs the service-time step: the record the slot points to gets the time |
| `Master.CheckStatus` | src/d2sc_mgr/d2sc_nf.c:89-132 | The loop over the dequeued messages leaves the state the messages give one by one, keeps the invariant and leaves the ring empty |
| `NfRuntime.StartNf` | src/d2sc_nfrt/d2sc_nfrt.c:186-203 | A new NF, of any type number and max_load, takes a record and asks for an id, which keeps the invariant |
| `NfRuntime.NfReady` | src/d2sc_nfrt/d2sc_nfrt.c:393-409 | The NF sends READY for its record, which keeps the invariant |
| `NfRuntime.NfSrvTime` | src/d2sc_nfrt/d2sc_nfrt.c:741-756 | The NF stores its service time and sends SRV_TIME, which keeps the invariant |
| `NfRuntime.Stop` | src/d2sc_nfrt/d2sc_nfrt.c:471-493 | The program of a running, unblocked NF sets STOPPED and sends STOPPING, which keeps the invariant |
| `NfRuntime.CheckScaleMsg` | src/d2sc_nfrt/d2sc_nfrt.c:427-468 | The NF takes one scale message and answers it only when the flag, and for a wake-up the status, fit; this keeps the invariant |
| `Router.NtToNfMap` | src/d2sc_nfrt/d2sc_sc.c:27-62 | The circular search ends, and returns the instance at place rss mod num of the row when it is not blocked, otherwise the first running unblocked one of the type after it |
| `Router.ChosenIsOpen` | src/d2sc_nfrt/d2sc_sc.c:27-62 | In every reachable state the result is 0 just when the type has no instance, otherwise an instance of that type with bk_flag other than 2; a replacement runs and is the nearest such one after the hashed one |
| `Router.LoopEndsIff` | src/d2sc_nfrt/d2sc_sc.c:43-57 | The loop of the search returns after some number of turns just when the type has a running, unblocked instance |
| `Router.SettledTerminates` | src/d2sc_nfrt/d2sc_sc.c:27-62 | With no message queued, the search ends for every packet of a type just when nfs_per_nt_available is positive |
| `Router.HashedIsMember` | src/d2sc_nfrt/d2sc_sc.c:40-41 | In every reachable state the hash selects a registered instance of the type, never an empty entry |
| `Router.HashSelects` | src/d2sc_nfrt/d2sc_sc.c:40-57 | A packet goes to the instance at place rss mod num of the row of its type just when that one is not blocked |
| `Router.EqualShares` | src/d2sc_nfrt/d2sc_sc.c:40-41 | Of any num successive hashes exactly one selects a given registered instance, and packets with that hash go to it when it is not blocked |
| `Scale.BlockToRun` | src/d2sc_mgr/d2sc_scale.c:315-339 | The loop sends SCALE_RUN to exactly the chosen blocked instances and touches nothing else |
| `Scale.WokenCount` | src/d2sc_mgr/d2sc_scale.c:315-339 | It wakes exactly min(requested, blocked) instances, those with the lowest ids, except that a request for none wakes all when the lowest occupied slot is a blocked one of the type |
| `Scale.BlockedIdsAreMembers` | src/d2sc_mgr/d2sc_scale.c:315-339 | In every reachable state the slots it finds are the registered instances of the type that are blocked |
| `Scale.OverloadedIff` | src/d2sc_mgr/d2sc_scale.c:46-53 | A running instance with a service time counts as overloaded just when its load calls for at least one whole instance |
| `Scale.OverloadSplit` | src/d2sc_mgr/d2sc_scale.c:58-76 | For an overloaded instance with max_load above 0: SCALE_RUN messages plus scale_num equal load / max_load just when that number fits 16 bits and as many instances are BLOCKED as the counters promise for the request |
| `Scale.SettledSplit` | src/d2sc_mgr/d2sc_scale.c:58-76 | With no message queued and max_load above 0, the split is exact just when load / max_load fits 16 bits; min(needed, blocked) instances are woken unless the truncated number is 0 |
| `ScaleThread.AnswerSlot` | src/d2sc_mgr/d2sc_scale.c:58-76 | The code for one overloaded instance with max_load above 0 wakes, marks and asks for new instances as split |
| `Overload.ChecksExactly` | src/d2sc_mgr/d2sc_scale.c:35-97 | When it divides by no zero, the check marks exactly the overloaded instances and those with a full receive ring; scale_num becomes the number of new instances an overload calls for, or grows by one for a full ring when none of the type is available; each instance gets one SCALE_RUN for every overloaded instance it is woken for |
| `Overload.SameAnswer` | src/d2sc_mgr/d2sc_scale.c:58-76 | What an overload calls for does not depend on the marks and messages of the slots before it, as long as no max_load divided by is 0 |
| `Overload.DividesByNoZeroIff` | src/d2sc_mgr/d2sc_scale.c:46-63 | The check divides by no zero just when every running instance with a nonzero srv_time has max_load above 0 |
| `Overload.RunRated` | src/d2sc_nfrt/d2sc_nfrt.c:186-203 | In a run in which no NF starts with max_load 0, the overload check never divides by zero |
| `ScaleThread.ChoiceExists` | src/d2sc_mgr/d2sc_scale.c:187-193 | The search for an instance to block stays inside the row just when some instance of the type runs, and then finds a registered running one |
| `ScaleThread.BlockNowKeepsIff` | src/d2sc_mgr/d2sc_scale.c:193-199 | Blocking the chosen instance keeps the invariant just when its bk_flag is not 2 |
| `ScaleThread.SettledBlock` | src/d2sc_mgr/d2sc_scale.c:158-204 | With no message queued and two instances available, the search succeeds and blocking its result keeps the invariant |
| `LoadCheck.SpareIs` | src/d2sc_mgr/d2sc_scale.c:158-186 | The test of the load check passes just when what the available instances can carry less the load, reduced to 16 bits, reaches one max_load, and more than one instance is available |
| `LoadCheck.SpareMeansCapacityIff` | src/d2sc_mgr/d2sc_scale.c:185-186 | A test that passes shows spare capacity just when the load is not above what the available instances can carry |
| `LoadCheck.CapacityFoundIff` | src/d2sc_mgr/d2sc_scale.c:185-186 | Spare capacity is found just when, reduced to 16 bits, it still reaches one max_load; always when it is below 65536 |
| `LoadCheck.ExactInRange` | src/d2sc_mgr/d2sc_scale.c:185-186 | The test is exact when what the available instances can carry less the load lies between 0 and 65535 |
| `LoadCheck.LoadIsOfRow` | src/d2sc_mgr/d2sc_scale.c:169-183 | In every reachable state the load tested for a type is, modulo 65536, the sum of pkt_rate * srv_time over the running instances in the row of the type, and of no others |
| `LoadCheck.SpareIsLocal` | src/d2sc_mgr/d2sc_scale.c:169-186 | Two states that agree on the running instances of a type and on how many are available give the same answer for the type, whatever the other types do |
| `LoadCheck.LimitIsOfLast` | src/d2sc_mgr/d2sc_scale.c:169-183 | The max_load used is that of the last running instance of the type with a service time, or the uninitialised local variable when there is none |
| `Shortfalls.OverloadLooksSpare` | src/d2sc_mgr/d2sc_scale.c:185-186 | A run comes to a settled state with two running instances, max_load 10000 and load 30001, in which the test passes although there is no capacity |
| `ScaleThread.ParentAnswers` | src/d2sc_mgr/d2sc_scale.c:138-155 | When all instances of a type are blocked, exactly one is told to run, and on reading its queue, whatever was in it before, it runs again and has reported it once |
| `ScalePass.Scaler.CheckOverload` | src/d2sc_mgr/d2sc_scale.c:35-97 | Both loops, when they divide by no zero: overload answers slot by slot, then marks for full receive rings |
| `ScalePass.Scaler.CheckUpSignal` | src/d2sc_mgr/d2sc_scale.c:122-135 | up_signal is set just when some running instance is marked as overloaded |
| `ScalePass.Scaler.SendUpMessages` | src/d2sc_mgr/main.c:137-146 | Exactly the running instances with a nonzero scale_num are told to scale up |
| `ScalePass.Scaler.SendBlockMessages` | src/d2sc_mgr/main.c:150-159 | Exactly the running instances with bk_flag 1 are told to block |
| `ScalePass.Scaler.BlockExecute` | src/d2sc_mgr/d2sc_scale.c:228-240 | A block message is sent just when bk_flag is 1 |
| `ScalePass.Scaler.RunParent` | src/d2sc_mgr/d2sc_scale.c:138-155 | The first blocked instance of the type, and no other, is told to run |
| `ScalePass.Scaler.CheckTypeLoad` | src/d2sc_mgr/d2sc_scale.c:158-204 | When the 16-bit test of the load check passes, the one counter for all types goes up, and at the fifth pass it returns to 0 and the last running instance of the row is blocked; when the test fails, nothing changes |
| `ScalePass.FindRunning` | src/d2sc_mgr/d2sc_scale.c:187-193 | The search from the end of the row finds the last running instance |
| `ScalePass.Scaler.Pass` | src/d2sc_mgr/main.c:133-175 | One pass of the scale thread over at most 16 types, from any state in which its searches end and it divides by no zero, leaves the stated state; every running instance about to block then has a SCALE_BLOCK message queued |
| `PassSteps.PassIsSteps` | src/d2sc_mgr/main.c:133-175 | A pass that divides by no zero, whose searches end and that picks no blocked instance to block is a series of enabled steps of the system |
| `PassSteps.PassKeepsIff` | src/d2sc_mgr/main.c:133-175 | From any state of a run in which no running instance with a service time has max_load 0 and the searches end, the pass keeps the invariant just when no instance it picks to block has bk_flag 2 |
| `PassSteps.SettledPass` | src/d2sc_mgr/main.c:133-175 | With no message queued, every search of the pass ends and no instance it picks is blocked |
| `PassSlots.AlarmIsSignal` | src/d2sc_mgr/main.c:136-146 | After the overload check up_signal is raised just when some running instance is overloaded, newly full, or still marked |
| `PassSlots.PassSlot` | src/d2sc_mgr/main.c:133-175 | What a pass leaves on every slot: ol_flag, scale_num and bk_flag, exactly the SCALE_RUN, SCALE_UP and SCALE_BLOCK messages added to its queue and their order; nothing else changes |
| `PassSlots.PassWakesParent` | src/d2sc_mgr/main.c:161-175 | With no message queued, a pass over a type that is wholly blocked sends SCALE_RUN to its instance with the lowest id |
| `PassSlots.EveryFifth` | src/d2sc_mgr/d2sc_scale.c:186-200 | The counter counts the load checks that pass, of all types, modulo 5, and exactly those that bring it to a multiple of 5 search for an instance to block |
| `ScaleSteps.FlagsAfter` | src/d2sc_mgr/main.c:161-175 | The pass raises the block flag of exactly the instances it picks |
| `TxThreads.ServedOnce` | src/d2sc_mgr/main.c:274-290 | Every id from 1 to 15 lies in the range of exactly one TX thread, id 0 in none |
| `TxThreads.AssignInstances` | src/d2sc_mgr/main.c:284-290 | The loop of main gives the threads those ranges |
| `ServiceChain.Chain.MergeEntry` | src/d2sc_nfrt/d2sc_sc.c:64-77 | With room the entry is appended and nothing else changes; ENOSPC changes nothing |
| `ServiceChain.AppendLeavesArrayIff` | src/d2sc_nfrt/d2sc_sc.c:67-74 | An append that the test lets through writes outside the array just for sc_len 5 and 6 |
| `ServiceChain.Chain.SetEntry` | src/d2sc_nfrt/d2sc_sc.c:79-87 | Replaces one entry, or fails just when the index is beyond the chain and changes nothing |
| `ServiceChain.WalkMeetsEntries` | src/d2sc_nfrt/d2sc_sc.c:99-115 | From the head, successive look-ups give the entries in the order appended, then a drop |
| `ServiceChain.HopsCounted` | src/d2sc_nfrt/d2sc_sc.c:99-115 | From any place in its chain, a packet always returned with NEXT is led by the chain to as many instances as there are entries left before the first that is not TONF |
| `ServiceChain.Build` | src/d2sc_nfrt/d2sc_sc.c:64-77 | A chain built by k calls of the append function leads every packet along the k entries in order and then to a drop |
| `Journey.VisitsIff` | src/d2sc_nfrt/d2sc_pkt_process.c:54-70 | When the types on its way have instances, a packet from the NIC that is always returned with NEXT visits as many instances as its chain has leading TONF entries just when the first entry is TONF; in any other case, the empty chain included, it visits one; never more than there are entries unless there are none |
| `Journey.TripMeetsEntries` | src/d2sc_nfrt/d2sc_pkt_process.c:54-70 | End to end, whatever others do between the calls: the packet is handed to an instance of the type the first entry names, whatever its action, then meets the second entry, the third and so on, and after the last one is dropped |
| `PacketBuffers.BufQueue.EnqueueBq` | src/d2sc_nfrt/d2sc_pkt_process.c:76-104 | In-place form of the enqueue step: routed, buffered, flushed at 32, or dropped |
| `PacketBuffers.BufQueue.FlushNf` | src/d2sc_nfrt/d2sc_pkt_process.c:107-128 | In-place form of the flush: all of the buffer or none goes into the ring, statistics by the buffer's count |
| `PacketBuffers.BufQueue.FlushAllBqs` | src/d2sc_nfrt/d2sc_pkt_process.c:131-142 | In-place form of the flush of all sixteen buffers in turn |
| `PacketBuffers.BufQueue.RxBatch` | src/d2sc_nfrt/d2sc_pkt_process.c:43-73 | In-place form of the receive batch |
| `PacketBuffers.BufQueue.Receive` | src/d2sc_mgr/main.c:57-70 | The RX thread hands a batch on, or frees all of it while num_nfs is 0 |
| `PacketBuffers.BufQueue.TxBatch` | src/d2sc_nfrt/d2sc_pkt_process.c:145-190 | In-place form of the transmit batch, with its early return at an invalid action, for batches whose packets can be routed and that follow no wrong pointer |
| `PacketBuffers.BufQueue.FlushPort` | src/d2sc_nfrt/d2sc_pkt_process.c:193-214 | In-place form of the port flush: the NIC takes a prefix, the rest is dropped and counted |
| `PacketBuffers.BufQueue.FlushAllPorts` | src/d2sc_nfrt/d2sc_pkt_process.c:217-226 | In-place form of the flush of every port in turn |
| `PacketBuffers.BufQueue.EnqueueTxRing` | src/d2sc_nfrt/d2sc_pkt_process.c:229-243 | In-place form of the hand-over to the tx ring, all or nothing |
| `PacketBuffers.BufQueue.ProcessNextAct` | src/d2sc_nfrt/d2sc_pkt_process.c:249-285 | In-place form of the next-action step, where it follows no wrong pointer |
| `PacketBuffers.BufQueue.EnqueuePort` | src/d2sc_nfrt/d2sc_pkt_process.c:288-302 | In-place form of the port enqueue; on an instance's own queue only for port numbers that are not below the number of ports |
| `PacketBuffers.BufQueue.Drop` | src/d2sc_nfrt/d2sc_pkt_process.c:319-325 | Dropping a packet returns 1, the reason why act_drop never grows |
| `PacketPath.EnqueueBq` | src/d2sc_nfrt/d2sc_pkt_process.c:76-104 | After the call every buffer again has a free slot |
| `PacketPath.RxBatch` | src/d2sc_nfrt/d2sc_pkt_process.c:43-73 | After the call every buffer again has a free slot |
| `PacketPath.TxBatch` | src/d2sc_nfrt/d2sc_pkt_process.c:145-190 | After the call every buffer again has a free slot |
| `Conservation.RxBatchConserves` | src/d2sc_nfrt/d2sc_pkt_process.c:43-73 | Each packet is afterwards in as many places as before and handed in: buffers, rings, ports, free, sent |
| `Conservation.TxBatchConserves` | src/d2sc_nfrt/d2sc_pkt_process.c:145-190 | Each packet of a transmit batch is afterwards in one place more and every other in as many as before, with the packets the code forgets counted as lost |
| `Delivery.RxBatchDelivers` | src/d2sc_nfrt/d2sc_pkt_process.c:43-73 | Each instance is sent exactly the packets whose chain and hash select it, in order; none is lost; ring and buffer hold an order-preserving subsequence of what was there and what was sent; rx + rx_drop + cnt grows by the packets sent |
| `Delivery.TxBatchDelivers` | src/d2sc_nfrt/d2sc_pkt_process.c:145-190 | In a transmit batch every packet meets the fate its meta data calls for: each instance, each port and the tx ring are handed exactly the packets that lead there, in order, with the receive statistics in step; act_drop does not grow |
| `Rings.FlushedBqs` | src/d2sc_nfrt/d2sc_pkt_process.c:131-142 | The flush of all buffers offers the buffer of each running instance as a whole to its ring, with statistics to match, empties it, and leaves the buffers of the others |
| `Rings.RxBatchFills` | src/d2sc_nfrt/d2sc_pkt_process.c:43-73 | A batch from the NIC leaves in each running instance's ring what was there, then its buffer and the packets for it in order, offered 32 at a time and then the rest; all of them when they fit; and no packet in the buffer; the buffers of the others stay |
| `Rings.TxBatchFills` | src/d2sc_nfrt/d2sc_pkt_process.c:145-190 | A transmit batch pours buffer and packets for an instance into its ring 32 at a time, each 32 whole or not at all, and fewer than 32 wait; none is dropped when all fit |
| `Rings.TxBatchSends` | src/d2sc_nfrt/d2sc_pkt_process.c:145-190 | The same for the tx ring of the instance and for ports: a port's buffer keeps what does not fill 32, and a NIC that takes every burst has sent all the rest in order |
| `Losses.TxBatchLosesIff` | src/d2sc_nfrt/d2sc_pkt_process.c:145-190 | A batch whose packets can be routed and that follows no wrong pointer loses no packet just when only its last packet may have an invalid action, OUT on a queue of the manager names a port number below the number of ports, and NEXT finds the end of the chain or an entry that says drop, instance, or such a port |
| `Unions.ReadsLiveIff` | src/d2sc_nfrt/d2sc_pkt_process.c:277-280 | A batch reads the union of its buffer queue only as the owner wrote it, just when no NEXT it comes to on an instance's own queue finds an OUT entry with a port number below the number of ports |
| `Unions.SoundBatchIff` | src/d2sc_nfrt/d2sc_pkt_process.c:145-190 | What the theorems about transmit batches ask for is exactly that the packets the batch comes to can be routed and that no wrong pointer is followed |
| `Unions.FineIff` | src/d2sc_nfrt/d2sc_pkt_process.c:145-190 | Of the batches whose packets can be routed, exactly those follow no wrong pointer and lose no packet that meet the guards of TxBatchLosesIff and in which, on an instance's own queue, no NEXT finds OUT to a port number below the number of ports |
| `Unions.WrongMemberRead` | src/d2sc_nfrt/d2sc_pkt_process.c:277-280 | An instance that processes its own batch and returns NEXT where the chain goes on with OUT to port 0 makes the code use its tx buffer as a TX thread, although the guards against losses are met |
| `Losses.FlushedPorts` | src/d2sc_nfrt/d2sc_pkt_process.c:217-226 | The flush of all ports empties the buffers of the listed port ids and of no others |
| `Losses.PortsMatchIff` | src/d2sc_nfrt/d2sc_pkt_process.c:294-298 | With distinct ids, every listed port is accepted just when every accepted port is listed, that is, when the ids are the numbers from 0 on in some order |
| `Losses.PortIdsAreNotNumbers` | src/d2sc_nfrt/d2sc_pkt_process.c:294-298 | With port ids 1 and 3, packets for port 3 are lost, and the buffer for number 0 is not flushed |
| `Outbound.TxBatchLeaves` | src/d2sc_nfrt/d2sc_pkt_process.c:145-190 | A batch keeps the lanes to all ports and to the tx ring of the instance: in order, with tx + tx_drop + cnt in step, and a port's tx counting what the NIC took |
| `Outbound.FlushPortLeaves` | src/d2sc_nfrt/d2sc_pkt_process.c:193-214 | A port flush keeps its lane |
| `Outbound.EnqueueTxRingLeaves` | src/d2sc_nfrt/d2sc_pkt_process.c:229-243 | The hand-over to the tx ring keeps its lane |
| `Progress.FlushedPortsSend` | src/d2sc_nfrt/d2sc_pkt_process.c:217-226 | The flush of all ports empties the buffers of the listed ports, all of it sent when the NIC takes every burst, counts what was sent and what was not, and touches no other port |
| `Progress.BurstTaken` | src/d2sc_nfrt/d2sc_pkt_process.c:193-214 | One burst: the NIC takes from the head as many packets as it is ready for, the rest is freed and counted as dropped; on an instance's queue nothing happens |
| `Progress.HandedOver` | src/d2sc_nfrt/d2sc_pkt_process.c:229-243 | The hand-over offers the whole buffer to the tx ring and counts it as sent or dropped |
| `Progress.ReceiveArrives` | src/d2sc_mgr/main.c:57-70 | A batch received while num_nfs is not 0 reaches the rings of the running instances, all of it when it fits, with rx to match; while num_nfs is 0 it is freed and nothing else happens |
| `Progress.FlushArrives` | src/d2sc_mgr/main.c:112-113 | The flush of a TX thread offers the buffer of each running instance to its ring and empties it |
| `Progress.TxTurnTakes` | src/d2sc_mgr/main.c:91-107 | A TX thread takes the first 32 packets, or all there are, from the tx ring of a running instance, none of one that does not run, and puts none back |
| `Progress.NfTurnTakes` | src/d2sc_nfrt/d2sc_nfrt.c:698-701 | An instance takes the first 32 packets, or all there are, from its receive ring; what it sends to itself joins the end |
| `Progress.TxBatchMarks` | src/d2sc_nfrt/d2sc_pkt_process.c:145-190 | act_tonf, act_out and act_next of the instance grow by exactly the packets the batch comes to that say so, directly or, for the first two, as next entry; those of other instances stay |
| `Progress.TxBatchWrites` | src/d2sc_nfrt/d2sc_pkt_process.c:145-190 | A transmit batch sets src of each packet it comes to, and after NEXT act, dst and sc_index from its chain; the meta data of all other packets stay |
| `Progress.RxEachWrites` | src/d2sc_nfrt/d2sc_pkt_process.c:54-69 | A batch from the NIC sets src 0, sc_index 1, and act and dst of the first entry, or DROP and 0 for an empty chain |
| `Lanes.CallInOrder` | src/d2sc_nfrt/d2sc_pkt_process.c:107-128 | A step of an owner keeps its packets in a queue it shares in the order it put them in |
| `Bags.SubPositions` | src/d2sc_nfrt/d2sc_pkt_process.c:107-128 | The order relation means: there are increasing positions in the second queue that hold the packets of the first |
| `PacketCalls.DoConserves` | src/d2sc_mgr/main.c:91-115 | Every call, with the dequeue before it, conserves packets |
| `PacketCalls.DoLosesIff` | src/d2sc_mgr/main.c:91-115 | A call, for packets that can be routed and without a wrong pointer followed, loses no packet just when the batch it works on, if any, meets the guards |
| `Owners.ActConserves` | src/d2sc_mgr/main.c:277-312 | A step of one thread or instance conserves packets over the buffers of all, the shared rings and the ports |
| `Ordering.ActOrdered` | src/d2sc_mgr/main.c:277-312 | A step of one thread or instance keeps the packets of every one of them, in every receive ring, tx ring and port, in the order it put them in |
| `Accounts.ActRxBalance` | src/d2sc_nfrt/d2sc_pkt_process.c:117-127 | A step keeps rx + rx_drop plus what waits in all buffers for an instance equal to what all owners have routed to it |
| `Accounts.ActPortBalance` | src/d2sc_nfrt/d2sc_pkt_process.c:193-214 | The same for a port, whose tx also counts what the NIC took |
| `Accounts.ActTxBalance` | src/d2sc_nfrt/d2sc_pkt_process.c:229-243 | The same for the tx ring of an instance |
| `PacketRuns.RunConserves` | src/d2sc_nfrt/d2sc_pkt_process.c:43-302 | Over any run of RX threads, TX threads and instances, in any order, whose packets can be routed and whose batches follow no wrong pointer (Unions.SoundBatchIff says when), and whatever the manager does in between, batches dropped before an instance is ready included, each packet is in as many places as at the start and handed in |
| `PacketRuns.StartOrdered` | src/d2sc_mgr/main.c:277-312 | Before anything is received all packets are in order |
| `PacketRuns.RunOrdered` | src/d2sc_nfrt/d2sc_pkt_process.c:43-302 | Over any such run the packets of every thread and instance stay in the order it put them in |
| `PacketRuns.RunAccounts` | src/d2sc_nfrt/d2sc_pkt_process.c:43-302 | Over any such run the statistics stay in step with what all threads and instances have put in, and act_drop does not grow |
| `PacketRuns.RunLosesIff` | src/d2sc_nfrt/d2sc_pkt_process.c:43-302 | Over any such run no packet is lost just when every transmit batch in it meets the guards |
| `PacketRuns.OnePlace` | src/d2sc_nfrt/d2sc_pkt_process.c:43-302 | After any such run whose transmit batches meet the guards, a packet that was handed in once is in exactly one place, once: freed, in a ring, sent, or in a buffer of one owner |
| `Forwarding.SettledRoutes` | src/d2sc_nfrt/d2sc_sc.c:27-62 | With no message queued, a packet can be routed to a type just when the type has no instance, the packet's hash selects an unblocked one, or one is available |
| `Forwarding.SettledRoutable` | src/d2sc_nfrt/d2sc_sc.c:27-62 | With no message queued, every packet of every type can be routed just when every type with instances has one available |
| `Forwarding.TargetIsOpen` | src/d2sc_nfrt/d2sc_pkt_process.c:86-99 | A packet that can be routed goes to an unblocked instance of its type; with no message queued it is dropped just when the type has no instance |
| `Forwarding.ArrivalFollowsChain` | src/d2sc_nfrt/d2sc_pkt_process.c:54-69 | A packet from the NIC takes action and destination from the first entry of its chain, with index 1 |
| `Forwarding.NextFollowsChain` | src/d2sc_nfrt/d2sc_pkt_process.c:249-285 | A packet returned with NEXT meets the next entry of its chain, or is dropped after the last; its index grows by one; an OUT entry met on an instance's own queue is covered unless its port number is below the number of ports |

## Left out

- DPDK and the operating system: EAL, memory zones, power management, lcores, sleeps and signals. Rings are sequences with all-or-nothing bulk enqueue, a NIC takes some prefix of each burst (how much is an input), the flow table or default chain of each packet is an input, and so are the fill of the receive rings and whether malloc succeeds.
- Argument parsing, statistics display, packet printing, header pointer arithmetic and scripts, and `examples/flow_tracker/flow_tracker.c`, whose onvm_* table functions are not part of this model.
- Data races inside one handler: each message handler, each read of a scale message, each write of the scale thread, and each call of the packet path with its dequeue is one step. In particular the sc_index of a packet is advanced together with the look-up, although the code advances it after the packet may have left.
- Shutdown: MSG_STOP and the signal handler, which set bk_flag to 2 directly.
- Ids chosen on the command line in runs; `Master.NfStart` itself covers them, conflicts included.
- Exhausted message pools and full message rings; message rings are unbounded sequences handled in order. On a full ring the senders exit; those of READY and SRV_TIME return an error, on which `d2sc_nfrt_run_callback` exits.
- Starting child instances after SCALE_UP; reading the message is a step without further effect.
- `d2sc_scale_check_block`, whose call is commented out, and the counters the statistics code resets when an instance stops.
- NULL arguments, on which the packet functions return at once.
- Partly overlapping buffers for the modes of AES: input and output are the same buffer or different ones.
- Lengths at which C's int arithmetic overflows (2^31 bytes, or a packet rate times service time of 2^31). Overload is computed with exact division where the code divides floats, and statistics counters do not wrap.
- The tables gf_mul, aes_sbox and aes_invsbox are functions by cases on the index instead of arrays.
- Cryptographic strength, and the fixed key and IV of the encryptor example.
- Lifecycle.PollKeeps: the handler's answer is one step with the dequeue, as above.
- The number of types the manager is started with is at most the default 16, the size of its arrays; the option accepts more.
- `d2sc_nfrt_ret_pkt`, by which a program returns a packet outside its handler.
- PacketBuffers.BufQueue.RxBatch: requires of every packet in it that it can be routed: the entry names a type below 16, because the look-up leaves its array otherwise, and the search for an instance ends; `Forwarding.SettledRoutes` says when that is. The same holds for the packets a transmit batch routes.
- PacketBuffers.BufQueue.TxBatch: requires also that no wrong union member is read; `Unions.ReadsLiveIff` says when that is.
- PacketBuffers.BufQueue.ProcessNextAct: requires the same of its packet.
- PacketBuffers.BufQueue.EnqueuePort: requires the same of its port number.
- CcmModes.AesDecryptCcm: requires lengths that stay inside its local blocks; `CcmModes.LocalsRespectedIff` says which they are.
- Scale.OverloadSplit: requires max_load above 0, by which it divides; `Overload.DividesByNoZeroIff` says when no overload check divides by zero. So do Scale.SettledSplit, ScaleThread.AnswerSlot, Overload.ChecksExactly, Overload.SameAnswer, ScalePass.Scaler.CheckOverload, ScalePass.Scaler.Pass and PassSteps.PassIsSteps.
- ServiceChain.Chain.MergeEntry: requires room in the array, which the code does not check; `ServiceChain.AppendLeavesArrayIff` says when it is missing.
- PassSteps.PassKeepsIff: requires that the searches for an instance to block stay inside their rows; `ScaleThread.ChoiceExists` says when they do. It also requires that the pass divides by no zero, as above.
