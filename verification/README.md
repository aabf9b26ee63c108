# Models of the busbar tester's protocols and ciphers, with proofs

The project models five parts of the busbar test program and proves what they are for. Every model
follows the code; where a law turned out not to hold of the code, the exact condition is proved.

## The parts

**DES** (`Des*.dfy`, `Fips*.dfy`). The privacy layer of SNMPv3 (sections 8.1.1.2 and 8.1.1.3 of
RFC 3414) rests on a table-driven DES: permutations by masked exchanges of bits, an initial rotation
hoisted out of the rounds, subkeys and boxes from tables, and hand-written tails for lengths that are not a
multiple of eight. `FipsDes.dfy` and `FipsBoxes.dfy` state the algorithm as FIPS PUB 46-3 does, on strings
of bits and by its selection tables and boxes. The main result is that the code is that algorithm, bytes in
and bytes out, for every key and block (`OctetsAreStandard`): for any table of substitution boxes
(`EncryptionConforms`, `DecryptionConforms`), and all 512 words of des_SPtrans are those of the standard
(`SpTransConforms`). Beside it stand the laws that need no standard: inversion, triple DES as three
applications and its collapse, complementation, independence of parity, self-dual and semi-weak keys and
which of them the list finds, and CBC for every length, in place and split over calls. CBC is that of
the standard, for one key and for three, if and only if (`CbcEncryptionConforms`, `CbcDecryptionConforms`), and
`crypt` is, from characters to characters, the standard's cipher with a salted expansion (`CryptIsStandard`).

**The file lock and the single instance** (`LockedFile*.dfy`, `LocalPeer.dfy`). A state machine with one
step per system call: any number of processes that start, call, block, and crash at any moment. Safety,
truth of the results, and freedom from deadlock hold in every reachable state; every call is short, and a lock
is granted exactly if nobody else stands in the way (`LockAlone`, `WinnerLocks`). On top of it at most one live
process is the server.

**Configure, then read back** (`ModbusCrc.dfy`, `RtuFrames.dfy`, `RtuReply.dfy`, `DevSiRtu.dfy`,
`RtuReadBack.dfy`, `BoxData.dfy`, `BoxReadBack.dfy`, `RegisterMap.dfy`). The commands compute register
addresses; the parser only moves a pointer through a reply of 706 bytes. `RegisterMap.dfy` says by the numbers
which register every field of the packet and of the record is. For any contents of a device with 350
registers, the parsed reply after a command differs from the one before it in what the command sets and nowhere
else; and for each command `BoxReadBack.dfy` says what the record of the box then is, or that it is unchanged.
The CRC rejects all errors inside sixteen consecutive bits.

**The collection** (`Collect.dfy`). Linked blocks of twenty-five places that behave as a sequence, with
every element and block freed exactly once.

**MAC addresses and the voltage check** (`MacAddr.dfy`, `VoltageCheck.dfy`). Printing and parsing undo
each other; counting agrees with adding, and two steps with their sum, under exact conditions. A loop that
goes back to its start ends after at most six readings, and its result and marks are those of the readings it
took.

Methods carry the loops and the updates in place of the source and are proved against specification
functions; lemmas prove what the source promises of those functions.

## What the proofs brought to light

* `macAdd` returns its argument when the sum is zero, so `macCnt` then counts 0 steps
  (`CountOfAdded` gives the exact condition), and two steps need not be their sum (`StepsLost`;
  `NumbersAddUp` and `AddedTwice` give the exact conditions).
* The list of weak keys has 1F and E0 eight times where 1F1F1F1F0E0E0E0E and E0E0E0E0F1F1F1F1 are the
  self-dual keys, and the lookup compares as many bytes as a pointer has: with pointers of eight bytes it
  misses those two (`SelfDualKeysFound`, `SelfDualKeyNotFound`), with pointers of four it compares half a key.
* `isMacAddress` accepts commas and colons, but the parser looks for dashes only and returns no bytes for
  an address with another separator (`GetMacArray`); `fromBigEndian` then reads outside the array.
* The limits of the zero line are written to registers 247 and 248, which the parser never reads
  (`ZeroLineIsNotReadBack`); the limits of a line's voltage are parsed and never recorded
  (`StartLineVolDoesNotArrive`).
* The commands for baud rate, iOF, buzzer and alarm filter store sixteen bits of which the parser keeps eight
  (`InsertBaudArrives` and the three after it).
* The record of a plug box shows the frequency, currents, total power and unbalances of the start box read
  before it (`PlugRecordShowsTheStartBox`). The temperature alarm that is recorded is never parsed
  (`UpalarmIsNeverParsed`, `SensorAlarmsAreOld`).
* `readPduData` returns true for an accepted reply of another box, whose values it does not record
  (`ReadPduData`).
* The register map names the low word of each energy value; the high word is one register below
  (`PlugRecvLoopData`, `StartRecvLineData`). Registers 7 to 10 of the start box have other names in the
  map than the parser gives them (datapacket.h:47-50 and dev_sirtu.cpp:334-338).
* The residual current's alarm is read twice, from registers 76 and 292; the second one stays.
* The documentation of `lock` says that true means locked (qtlockedfile.cpp:169-170); `lock(NoLock)`
  returns true and leaves the object unlocked, and no other mode does (`ResultsAreTrue`).
* The voltage check takes its tolerance from the field for the current's error.

## Model

| member | source | states |
|---|---|---|
| DesConforms.EncryptionConforms | BusbarDebug/snmp/des_enc.c:61-160 | For every table of boxes, key and block: the bits that des_encrypt leaves under the schedule of des_set_key are the cipher of FIPS PUB 46-3 under K1 to K16, with the standard's IP, E, PC1, PC2, shifts and inverse IP and the boxes the table stands for |
| DesConforms.DecryptionConforms | BusbarDebug/snmp/des_enc.c:122-150 | The decrypting branch is the standard's cipher under K16 to K1 |
| DesConforms.CoreConforms | BusbarDebug/snmp/des_enc.c:75-158 | The same for any list of subkeys, one KS value of the standard for every pair of schedule words |
| DesConforms.RoundConforms | BusbarDebug/snmp/des_locl.h:431-442 | One D_ENCRYPT with the exchange of halves is one round of the standard on halves kept rotated by three places |
| DesConforms.RoundFunctionConforms | BusbarDebug/snmp/des_locl.h:278-281 | Indexing four tables by R^s[S] and four by the rotated R^s[S+1] is f(R, K): each table reads the six bits that E gives it, plus six key bits |
| DesBoxesConform.OctetsAreStandard | BusbarDebug/snmp/des_enc.c:61-160 | With des_SPtrans: the eight bytes des_encrypt makes of eight bytes under the schedule of an eight-byte key are those of the cipher of FIPS PUB 46-3, whole and in both directions: f(R, K) is P of the outputs of S1 to S8 |
| DesBoxesConform.SpTransConforms | BusbarDebug/snmp/spr.h:60-204 | All 512 words of des_SPtrans are entries of S1 to S8, spread by P and rotated, at the index that counts the six input bits lowest first |
| DesBoxesConform.RoundFunctionIsF | BusbarDebug/snmp/des_locl.h:431-442 | With des_SPtrans, what D_ENCRYPT adds to the left half is f(R, K) as the standard defines it |
| DesConforms.OctetsConform | BusbarDebug/snmp/des_enc.c:61-160 | For any table of boxes: bytes in, bytes out, key of bytes, in both directions |
| DesConforms.LoadedBits | BusbarDebug/snmp/des_locl.h:202-205 | The bits of a loaded block are those of its eight bytes, highest bit first |
| DesConforms.KeyOctets | BusbarDebug/snmp/set_key.c:177-181 | The bits of a loaded key are those of its eight bytes, highest bit first |
| DesPermutations.IpSelects | BusbarDebug/snmp/des_locl.h:483-495 | Five masked exchanges are the 64 entries of the standard's IP |
| DesPermutations.FpSelects | BusbarDebug/snmp/des_locl.h:497-505 | Five masked exchanges in the opposite order are the 64 entries of the standard's inverse IP |
| DesPermutations.InverseSelects | BusbarDebug/snmp/des_locl.h:446-505 | The two selection tables undo each other |
| DesKeyConforms.ScheduleConforms | BusbarDebug/snmp/set_key.c:158-237 | The thirty-two words hold K1 to K16 of the standard, six bits to each box |
| DesKeyConforms.Pc1Selects | BusbarDebug/snmp/set_key.c:196-207 | The 47 operations are the 56 entries of PC1 |
| DesKeyConforms.HalvesShift | BusbarDebug/snmp/set_key.c:209-216 | After n turns c and d are C and D after n left shifts, for every key |
| DesKeyConforms.Pc2Selects | BusbarDebug/snmp/set_key.c:219-234 | Eight table lookups, two joins and two rotations are the 48 entries of PC2 |
| DesKeyConforms.Skb0Spreads | BusbarDebug/snmp/sk.h:59-77 | In every entry of the first table each bit of the index shows at one place and nowhere else; its seven companions say the same of the other tables |
| DesWords.FpUndoesIp | BusbarDebug/snmp/des_locl.h:483-505 | FP with exchanged arguments undoes IP |
| DesWords.IpUndoesFp | BusbarDebug/snmp/des_locl.h:483-505 | IP undoes FP with exchanged arguments |
| DesWords.IpNot | BusbarDebug/snmp/des_locl.h:483-495 | IP commutes with complementing all bits |
| DesWords.FpNot | BusbarDebug/snmp/des_locl.h:497-505 | FP commutes with complementing all bits |
| DesWords.RotationsCancel | BusbarDebug/snmp/des_locl.h:257-261 | The rotation after the rounds cancels the one before them, both ways |
| DesBlockCipher.RunForward | BusbarDebug/snmp/des_enc.c:113-119 | The rolled loop of the encrypting branch, which exchanges roles and not halves, is the network of sixteen rounds in key order |
| DesBlockCipher.RunBackward | BusbarDebug/snmp/des_enc.c:142-148 | The rolled loop of the decrypting branch is the network in the opposite key order |
| DesBlockCipher.EncryptBlock | BusbarDebug/snmp/des_enc.c:61-160 | des_encrypt on data[0] and data[1] in place: IP, the rounds between the two rotations, FP |
| DesBlockCipher.EncryptBlock2 | BusbarDebug/snmp/des_enc.c:162-254 | des_encrypt2: the same without the permutations |
| DesBlockCipher.EncryptBlock3 | BusbarDebug/snmp/des_enc.c:256-277 | des_encrypt3: one IP, three passes of encrypt, decrypt, encrypt, one FP |
| DesBlockCipher.DecryptBlock3 | BusbarDebug/snmp/des_enc.c:279-300 | des_decrypt3: the three passes with the opposite directions under the keys in the opposite order |
| DesBlockCipher.RoundsInvert | BusbarDebug/snmp/des_enc.c:93-150 | Rounds under the reversed subkeys undo the rounds, for any list of subkeys and any table |
| DesBlockCipher.CoreInverts | BusbarDebug/snmp/des_enc.c:162-254 | des_encrypt2 in one direction undoes des_encrypt2 in the other |
| DesBlockCipher.DesInverts | BusbarDebug/snmp/des_enc.c:61-160 | Encrypting and decrypting undo each other in either order, for every schedule, table and block |
| DesBlockCipher.Des3Inverts | BusbarDebug/snmp/des_enc.c:256-300 | des_decrypt3 undoes des_encrypt3 for any three schedules |
| DesBlockCipher.Des3InverseInverts | BusbarDebug/snmp/des_enc.c:256-300 | des_encrypt3 undoes des_decrypt3 |
| DesBlockCipher.Des3IsThree | BusbarDebug/snmp/des_enc.c:256-300 | Permuting only once is three whole applications of des_encrypt, encrypt-decrypt-encrypt, and its mirror image for des_decrypt3 |
| DesBlockCipher.Des3Collapses | BusbarDebug/snmp/des_enc.c:256-277 | With the first two or the last two schedules equal, triple DES is DES under the remaining one |
| DesKeySchedule.WriteSchedule | BusbarDebug/snmp/set_key.c:177-237 | The loop that writes through k++ leaves exactly the thirty-two words of the schedule |
| DesKeySchedule.SetKey | BusbarDebug/snmp/set_key.c:158-237 | Result and schedule in every case: -1 exactly for a byte of wrong parity, -2 exactly for a key of right parity that the list lookup finds, both only when checking is on, and then the schedule untouched; else 0 and the whole schedule |
| DesWeakKeys.IsWeakKey | BusbarDebug/snmp/set_key.c:130-142 | True exactly if some listed key agrees with the key in as many bytes as a pointer has |
| DesWeakKeyLaws.SelfDualKeys | BusbarDebug/snmp/set_key.c:110-127 | Among the keys of odd parity exactly four have both halves constant |
| DesWeakKeyLaws.SelfDualKeysFound | BusbarDebug/snmp/set_key.c:130-142 | The lookup finds such a key if and only if pointers have four bytes or the key's two words are the same |
| DesWeakKeyLaws.SelfDualKeyNotFound | BusbarDebug/snmp/set_key.c:110-142 | With pointers of eight bytes the key 1F1F1F1F0E0E0E0E is self-dual and not found, and the entry of the list in its place is not self-dual |
| DesSemiWeakKeys.SemiWeakKeysUndo | BusbarDebug/snmp/set_key.c:116-127 | The last twelve listed keys are six pairs: encrypting with one key of a pair is decrypting with the other, for every table and block |
| DesKeySchedule.ScheduleSubKeys | BusbarDebug/snmp/set_key.c:209-235 | The i-th pair of words comes from the halves after i + 1 turns |
| DesKeyLaws.Complementation | BusbarDebug/snmp/set_key.c:158-237 | Complementing key and block complements the result, for every key, block and table, in both directions |
| DesKeyLaws.ScheduleNot | BusbarDebug/snmp/set_key.c:209-235 | A complemented key complements exactly the bits of every subkey that D_ENCRYPT looks at |
| DesKeyLaws.RoundFunctionNot | BusbarDebug/snmp/des_locl.h:431-442 | Complemented right half and complemented subkey give the same table indices |
| DesKeyLaws.ScheduleIgnoresParity | BusbarDebug/snmp/set_key.c:199-237 | Keys that differ only in parity bits have the same schedule |
| DesKeyLaws.OddParityKeepsSchedule | BusbarDebug/snmp/set_key.c:78-98 | des_set_odd_parity leaves the schedule of a key as it is, and every byte it leaves is odd |
| DesKeyLaws.KeyHalvesReturn | BusbarDebug/snmp/set_key.c:209-216 | After the sixteen turns c and d are where they started, for every key |
| DesKeyLaws.SelfDualKeysInvolve | BusbarDebug/snmp/set_key.c:110-127 | If each half is all zeros or all ones, encryption is its own inverse |
| DesKeyTables.Skb0Complements | BusbarDebug/snmp/sk.h:59-77 | Entry 63 - x is entry x xor entry 63, inside the bits of entry 63; likewise for the other seven tables |
| DesParity.OddParityIsOdd | BusbarDebug/snmp/podd.h:59-75 | Every entry of the parity table has an odd number of bits and the upper seven bits of its index |
| DesParity.OddParityFixes | BusbarDebug/snmp/podd.h:59-75 | The table leaves exactly the bytes of odd parity as they are |
| DesParity.SetOddParity | BusbarDebug/snmp/set_key.c:78-85 | Every byte of the key becomes its table entry, in place |
| DesParity.CheckParity | BusbarDebug/snmp/set_key.c:87-98 | True exactly if every byte of the key has odd parity |
| DesCrypt.FcryptBody | BusbarDebug/snmp/fcrypt.c:243-311 | Permutations and rotations done once for all iterations compute twenty-five salted encryptions of the zero block, one after the other |
| DesCrypt.BodyIterates | BusbarDebug/snmp/fcrypt.c:261-301 | The same for any number of iterations: the hoisted operations of neighbouring iterations cancel |
| DesCrypt.UnsaltedIsIteratedDes | BusbarDebug/snmp/fcrypt.c:243-311 | With both salt masks zero each iteration is des_encrypt |
| DesFcrypt.DesFcrypt | BusbarDebug/snmp/fcrypt.c:175-241 | des_fcrypt as a whole: salt characters, key packing, schedule, salted iterations, eleven characters of output |
| DesFcrypt.PackKey | BusbarDebug/snmp/fcrypt.c:206-213 | The packed key holds each password character up to the first NUL, shifted by one, and zeros behind it |
| DesFcrypt.Encode | BusbarDebug/snmp/fcrypt.c:218-238 | The moving mask writes the 64 bits of the two words, first byte first and highest bit first, six to a character |
| DesFcrypt.SaltUndoesChar | BusbarDebug/snmp/fcrypt.c:117-145 | con_salt maps every character of cov_2char back to its six bits |
| DesFcrypt.EncodedDetermines | BusbarDebug/snmp/fcrypt.c:223-238 | Different bytes make different characters |
| DesFcrypt.CryptShowsBlock | BusbarDebug/snmp/fcrypt.c:175-241 | Under one salt two results are equal exactly if the encrypted blocks are |
| DesFcrypt.EightCharactersCount | BusbarDebug/snmp/fcrypt.c:206-213 | Two passwords pack to one key exactly if their first eight characters agree in seven bits |
| DesFcrypt.SameEightCharacters | BusbarDebug/snmp/fcrypt.c:175-241 | Passwords that agree in the low seven bits of their first eight characters have the same result under every salt |
| DesFcrypt.DotsAreIteratedDes | BusbarDebug/snmp/fcrypt.c:195-200 | The salt ".." gives DES iterated twenty-five times on the zero block |
| DesCryptStandard.CryptIsStandard | BusbarDebug/snmp/fcrypt.c:175-311 | With des_SPtrans, for every password and salt: the thirteen characters of the result are the two of the salt (A for a NUL) and the letters of 64 bits and two zeros, six to a letter, that come of twenty-five encryptions of 64 zeros by the cipher of FIPS PUB 46-3, expanded bits i and i + 24 exchanged wherever salt bit i is set; the key is the seven low bits of each character and a zero |
| DesCryptConforms.CryptConforms | BusbarDebug/snmp/fcrypt.c:175-311 | The same up to the letters for any table of boxes, the salt bits taken from the two characters and the key bits from the characters of the password |
| DesCryptConforms.PasswordKeyBits | BusbarDebug/snmp/fcrypt.c:206-213 | The key bits are the seven low bits of each of the first eight characters, highest first, and a zero; NUL from the end on |
| DesCryptStandard.EncodedIsLetters | BusbarDebug/snmp/fcrypt.c:218-238 | The eleven letters are those of the 64 bits and two zeros, six bits each, the first one highest, in the order full stop, slash, digits, capitals, small letters |
| DesCryptStandard.CryptShowsSalt | BusbarDebug/snmp/fcrypt.c:195-200 | A result begins with the salt it was asked for, if and only if neither character is NUL; an A stands for a NUL |
| DesCryptStandard.CryptOfResult | BusbarDebug/snmp/fcrypt.c:175-241 | Encrypting a password under the first two characters of its result gives the result: how a password is checked |
| DesCryptConforms.SaltedFConforms | BusbarDebug/snmp/des_locl.h:271-275 | Exchanging bits of R under a mask before the subkey is added is exchanging expanded bits, for every mask des_fcrypt can make |
| DesCryptConforms.IterationsConform | BusbarDebug/snmp/fcrypt.c:265-301 | The same for any subkeys and any number of iterations |
| DesCryptConforms.SaltOfCharacters | BusbarDebug/snmp/fcrypt.c:195-200 | The masks hold six bits of the con_salt entry for each salt character, lowest first |
| DesBytes.StoreOfLoad | BusbarDebug/snmp/des_locl.h:202-227 | l2c after c2l gives every byte back, zero past the end of a short block |
| DesBytes.LoadOfStore | BusbarDebug/snmp/des_locl.h:202-227 | c2l after l2c gives both words back |
| DesBytes.C2ln | BusbarDebug/snmp/des_locl.h:207-221 | Of a short block the missing bytes are zero |
| DesBytes.L2cn | BusbarDebug/snmp/des_locl.h:242-255 | Only the first n bytes are written, and they are those of the block |
| DesCbc.CbcEncrypt | BusbarDebug/snmp/cbc_enc.c:61-134 | For every length, in place or not: the output is chained as in section 6.2 of NIST SP 800-38A, nothing behind it and not the vector changes |
| DesCbc.NcbcEncrypt | BusbarDebug/snmp/ncbc_enc.c:61-140 | The same, and the vector becomes the last ciphertext block; with the triple cipher this is des_ede3_cbc_encrypt (ede_enc.c:61-174) |
| DesCbcConforms.CbcEncryptionConforms | BusbarDebug/snmp/ncbc_enc.c:80-108 | With des_SPtrans, for one key or three and any vector and message: the bytes are those the encrypting branches write if and only if every ciphertext block is the standard cipher (DES, or encrypt-decrypt-encrypt) of the zero-padded plaintext block plus the block before it, the first plus the vector |
| DesCbcConforms.CbcDecryptionConforms | BusbarDebug/snmp/ncbc_enc.c:109-137 | The bytes are those the decrypting branches write if and only if each is its part of the inverse cipher of its block plus the ciphertext block before it |
| DesCbcConforms.EncryptionByBytes | BusbarDebug/snmp/cbc_enc.c:80-107 | For any cipher, byte by byte: a decrypted ciphertext block is the padded plaintext xored with the vector or with the ciphertext eight places back; if and only if |
| DesCbcConforms.DecryptionByBytes | BusbarDebug/snmp/cbc_enc.c:108-133 | Every plaintext byte is that of the decrypted block xored with the vector or with the ciphertext eight places back; if and only if |
| DesCbcConforms.ApplyConforms | BusbarDebug/snmp/des_enc.c:256-300 | The chained block function is the standard's forward or inverse cipher, for one key and for three, octets in and out |
| DesCbcConforms.LastBlockBytes | BusbarDebug/snmp/ncbc_enc.c:103-136 | The vector left for the next call is the last eight bytes of the ciphertext, or itself if there is none |
| DesCbc.RoundTrip | BusbarDebug/snmp/ncbc_enc.c:80-137 | For every length, key and vector: decrypting the zero-padded ciphertext gives the original bytes, tails of one to seven bytes included |
| DesCbc.RoundTripInPlace | BusbarDebug/snmp/ncbc_enc.c:80-137 | The same in one buffer, and the two vectors finish equal |
| DesCbc.EncryptionUnique | BusbarDebug/snmp/cbc_enc.c:80-107 | The chaining equations have one solution, so des_cbc_encrypt and des_ncbc_encrypt give the same output |
| DesCbc.DecryptionUnique | BusbarDebug/snmp/cbc_enc.c:108-133 | A ciphertext, a vector and a schedule have one decryption |
| DesCbc.SplitCallsAgree | BusbarDebug/snmp/ncbc_enc.c:103-136 | Encrypting a message in two calls that share the vector, the first a whole number of blocks, gives the output and the vector of one call |
| DesCbc.SplitDecryptionsAgree | BusbarDebug/snmp/ncbc_enc.c:109-137 | Decrypting in two calls, the first a whole number of blocks, gives the output and the vector of one call |
| DesCbc.EncryptionsChain | BusbarDebug/snmp/ncbc_enc.c:80-108 | Two chained encryptions are an encryption of the whole message |
| DesCbc.DecryptionsChain | BusbarDebug/snmp/ncbc_enc.c:109-137 | Two chained decryptions are a decryption of the whole ciphertext |
| LockedFileLaws.WriterExcludesAll | BusbarDebug/common/qtsingleapplication/qtlockedfile.cpp:49-53 | In every reachable state of any number of processes: one that has the file locked for writing is the only one that has it locked |
| LockedFileLaws.ReadersHaveTheirOwnSlots | BusbarDebug/common/qtsingleapplication/qtlockedfile_win.cpp:126-152 | Two processes that have it locked for reading own different slot mutexes |
| LockedFileLaws.RunKeeps | BusbarDebug/common/qtsingleapplication/qtlockedfile_win.cpp:104-203 | Every state of every run, crashes and abandoned waits included, satisfies the invariant on owners, handles and the fields of each process |
| LockedFileSteps.StepKeeps | BusbarDebug/common/qtsingleapplication/qtlockedfile_win.cpp:104-203 | Every single system call, call of lock or unlock, start and crash keeps that invariant |
| LockedFileLaws.UnlockedOwnsNothing | BusbarDebug/common/qtsingleapplication/qtlockedfile_win.cpp:177-203 | A process outside the calls that does not have the file locked owns no mutex |
| LockedFileLaws.ResultsAreTrue | BusbarDebug/common/qtsingleapplication/qtlockedfile_win.cpp:104-175 | Asked for a mode, lock returns true exactly if the file is then locked as asked, and after a failure it is not locked at all; asked for NoLock it returns true and leaves the object unlocked. So true means locked, as documented, if and only if the mode asked for is not NoLock |
| LockedFileProgress.LockAlone | BusbarDebug/common/qtsingleapplication/qtlockedfile_win.cpp:104-175 | lock from any state, the others doing nothing and CreateMutex not failing: the file is then locked as asked if and only if no other process owns the writer mutex and, for reading, some slot is not owned by another, for writing none is; otherwise it is not locked at all, and a non-blocking call has returned false |
| LockedFileProgress.WinnerLocks | BusbarDebug/common/qtsingleapplication/qtlockedfile_win.cpp:122-172 | In every run: from the acquisition of the writer mutex on, if nobody stands in the way then, nothing the others do or do not do, crashes included, keeps the lock from the process; it never blocks and has the lock after as many calls of its own as are left |
| LockedFileProgress.CallsAreShort | BusbarDebug/common/qtsingleapplication/qtlockedfile_win.cpp:104-203 | Every call of lock or unlock ends after at most 329 system calls of its own, whatever the others do; CallsGoOn is the step |
| LockedFileProgress.UnlockAlone | BusbarDebug/common/qtsingleapplication/qtlockedfile_win.cpp:177-203 | unlock from any state returns true, unlocked, and leaves owned exactly what the others own |
| LockedFileProgress.ScanFailsOnlyThen | BusbarDebug/common/qtsingleapplication/qtlockedfile_win.cpp:126-150 | A reader gives up only if CreateMutex fails or all slots have been passed over |
| LockedFileProgress.PassedOverOnlyThen | BusbarDebug/common/qtsingleapplication/qtlockedfile_win.cpp:128-133 | A slot is passed over only while another live process owns it |
| LockedFileProgress.ScanSawBusy | BusbarDebug/common/qtsingleapplication/qtlockedfile_win.cpp:126-137 | In every run: a reader that has come to a slot has seen every slot below it owned by another process |
| LockedFileLaws.WaitsDescend | BusbarDebug/common/qtsingleapplication/qtlockedfile_win.cpp:85-100 | Waiting goes down in rank in every reachable state, so the waits-for relation has no cycle |
| LockedFileLaws.NoDeadlock | BusbarDebug/common/qtsingleapplication/qtlockedfile_win.cpp:104-175 | From every process a chain of waits leads to one that is not blocked |
| LockedFileLaws.UnblockedCanGo | BusbarDebug/common/qtsingleapplication/qtlockedfile_win.cpp:104-203 | A process inside a call that is not blocked can make its next system call |
| LockedFileLaws.CreatedSlotIsTaken | BusbarDebug/common/qtsingleapplication/qtlockedfile_win.cpp:140-144 | A reader that created a slot acquires it: the failure branch behind the creation is dead |
| LockedFileLaws.RefusedOnlyByAnother | BusbarDebug/common/qtsingleapplication/qtlockedfile_win.cpp:123-124 | A non-blocking lock is refused at the writer mutex only while another live process owns it |
| LocalPeer.OneServer | BusbarDebug/common/qtsingleapplication/qtlocalpeer.cpp:113-133 | At most one live process has had isClient return false |
| LocalPeer.PeerStepKeeps | BusbarDebug/common/qtsingleapplication/qtlocalpeer.cpp:113-133 | No slot ever comes into being among processes that only ask isClient, and every server has the write lock |
| LocalPeer.ClientOnlyBehindAnother | BusbarDebug/common/qtsingleapplication/qtlocalpeer.cpp:118-119 | isClient answers true only if the writer mutex could not be created or another live process owns it |
| LocalPeer.OwnerBecomesServer | BusbarDebug/common/qtsingleapplication/qtlocalpeer.cpp:118-132 | The owner of the writer mutex is never turned back on its way to becoming the server |
| ModbusCrc.CalcCrc | BusbarDebug/common/modbus/rtu_serial.cpp:70-84 | The bit loop feeds one byte into the register (the same code stands at dev_object.cpp:130-149) |
| ModbusCrc.RtuCrc | BusbarDebug/common/modbus/rtu_serial.cpp:91-97 | The CRC of the first len bytes, from the preset 0xffff |
| ModbusCrc.RtuRecvCrc | BusbarDebug/common/modbus/rtu_read.cpp:43-57 | True exactly if there are two bytes at least and the last two are the CRC of the others, low byte first |
| ModbusCrc.CrcIsBitwise | BusbarDebug/common/modbus/rtu_serial.cpp:70-97 | Shifting byte by byte is feeding the bits one by one, least significant first |
| ModbusCrc.AcceptedIffZero | BusbarDebug/common/modbus/rtu_read.cpp:43-57 | A frame is accepted exactly if running the CRC over all of it, CRC included, leaves zero |
| ModbusCrc.BurstsAreRejected | BusbarDebug/common/modbus/rtu_read.cpp:43-57 | Two accepted frames of equal length, however long, that differ only inside sixteen consecutive bits are the same frame |
| ModbusCrc.TwoBadBytesAreRejected | BusbarDebug/common/modbus/rtu_read.cpp:43-57 | Two different accepted frames of equal length differ outside any two neighbouring bytes |
| ModbusCrc.WithCrcAccepted | BusbarDebug/common/modbus/rtu_write.cpp:112-115 | What a builder makes of any bytes is accepted |
| ModbusCrc.ZerosAreRejected | BusbarDebug/common/modbus/rtu_serial.cpp:91-97 | What the preset is for: no frame of zeros is accepted, however long |
| ModbusCrc.GeneratorLeavesZero | BusbarDebug/common/modbus/rtu_serial.cpp:70-84 | The register divides by x^16 + x^15 + x^2 + 1: fed with it, it comes back to zero |
| ModbusCrc.CrcOfExample | BusbarDebug/common/modbus/rtu_serial.cpp:91-97 | The CRC of 02 07 is 1241, as in section 6.2.2 of the MODBUS over Serial Line Specification |
| RtuFrames.BuildSingle | BusbarDebug/common/modbus/rtu_write.cpp:92-118 | The eleven bytes of the frame for one value |
| RtuFrames.BuildUshort | BusbarDebug/common/modbus/rtu_write.cpp:152-182 | The thirteen bytes of the frame for two values |
| RtuFrames.BuildUint | BusbarDebug/common/modbus/rtu_write.cpp:190-228 | The seventeen bytes of the frame for two long values |
| RtuFrames.WriteFrameParts | BusbarDebug/common/modbus/rtu_write.cpp:152-228 | Taken apart again, a frame gives the address, function, register, count and values it was built from, and its CRC is right |
| RtuFrames.WriteFrameBytes | BusbarDebug/common/modbus/rtu_write.cpp:92-228 | The bytes of a frame: every word high byte first, the CRC low byte first |
| RtuFrames.WriteIsObeyed | BusbarDebug/devices/dev_sictrl.cpp:159-197 | A device of any number of registers that obeys section 6.12 of the MODBUS Application Protocol Specification, and that the frame addresses alone or as one of all, stores exactly the values, from exactly the first register on |
| RtuFrames.OtherBoxesStay | BusbarDebug/devices/dev_sictrl.cpp:159-197 | A frame for one box changes nothing in any other |
| RtuFrames.RetriesAreHarmless | BusbarDebug/devices/dev_sictrl.cpp:170-173 | A frame that is sent again changes nothing more |
| RtuFrames.AnyAttemptsStore | BusbarDebug/devices/dev_sictrl.cpp:170-173 | However many of the attempts reach the device, one at least, the registers are the same in the end |
| RtuFrames.SendWithRetries | BusbarDebug/devices/dev_sictrl.cpp:170-173 | At most three attempts with one frame, up to the first that succeeds, whose outcome is the result |
| RtuReadBack.RtuSentUshortV3Buff | BusbarDebug/devices/dev_sictrl.cpp:159-175 | The arguments cut to sixteen bits, one frame, sent as above |
| RtuReadBack.UshortFits | BusbarDebug/devices/dev_sictrl.cpp:159-168 | An int arrives in a sixteen-bit field if and only if it fits, and otherwise modulo 65536 |
| RtuReadBack.UintFits | BusbarDebug/devices/dev_sictrl.cpp:177-190 | An int arrives in a thirty-two-bit field if and only if it fits, and otherwise modulo 2 to the 32 |
| RtuReadBack.RtuSentUintV3Buff | BusbarDebug/devices/dev_sictrl.cpp:177-197 | The arguments cut to thirty-two bits, high halves first |
| RtuReadBack.SentRtuCmd | BusbarDebug/devices/dev_sictrl.cpp:141-157 | The argument cut to sixteen bits, one frame, sent as above |
| DevSiRtu.RtuRecvLen | BusbarDebug/devices/dev_sirtu.cpp:287-307 | The four results of the length check; for the size in use the result is 0 exactly if the bytes received are as many as expected and their length field says so |
| DevSiRtu.PlugRecvLoopData | BusbarDebug/devices/dev_sirtu.cpp:477-507 | Every measured field of loop i is the register of the map, 16 + 15i onwards, energy included; the pointer has consumed fifteen registers |
| DevSiRtu.PlugRecvLoopAlarmData | BusbarDebug/devices/dev_sirtu.cpp:537-554 | Every threshold of loop i is the register of the map, 173 + 8i onwards |
| DevSiRtu.StartRecvLineData | BusbarDebug/devices/dev_sirtu.cpp:348-375 | Every measured field of line i of a start box is the register of the map, 19 + 17i onwards |
| DevSiRtu.StartRecvLastAlarmData | BusbarDebug/devices/dev_sirtu.cpp:441-458 | Every threshold of line i of a start box is the register of the map, 301 + 10i onwards |
| DevSiRtu.Dev_SiRtu.PlugFields | BusbarDebug/devices/dev_sirtu.cpp:592-606 | The whole plug-box branch by register number; the pointer ends behind register 244 |
| DevSiRtu.Dev_SiRtu.StartFields | BusbarDebug/devices/dev_sirtu.cpp:574-591 | The whole start-box branch by register number; the pointer ends behind register 330 |
| DevSiRtu.Dev_SiRtu.RtuRecvPacketV3 | BusbarDebug/devices/dev_sirtu.cpp:566-625 | True exactly if both lengths and the CRC are right; the packet becomes the parse of the reply whenever the lengths are right, whatever the CRC, and else stays |
| RtuReadBack.ReplyShowsRegisters | BusbarDebug/devices/dev_sirtu.cpp:566-611 | A reply built from any registers is accepted, and the word at byte 4 + 2r is register r |
| RtuReadBack.ReplyBytes | BusbarDebug/devices/dev_sirtu.cpp:315-322 | The bytes of a reply: address, function 3, length 700, and every register high byte first |
| RtuReadBack.VolReadsBack | BusbarDebug/devices/dev_sictrl.cpp:287-293 | For any registers, loop and arguments: the reply after setBusbarInsertVol parses to the packet before it with just those two thresholds of that loop replaced; each is the argument itself if and only if that fits sixteen bits |
| RtuReadBack.CurReadsBack | BusbarDebug/devices/dev_sictrl.cpp:279-285 | The same for setBusbarInsertCur; exact where the arguments fit |
| RtuReadBack.PowReadsBack | BusbarDebug/devices/dev_sictrl.cpp:295-301 | The same for setBusbarInsertPow, with two registers to a threshold; exact where the arguments fit |
| RtuReadBack.TemReadsBack | BusbarDebug/devices/dev_sictrl.cpp:263-269 | The same for setBusbarInsertTem and the sensor addressed; exact where the arguments fit |
| RtuReadBack.StartLineVolReadsBack | BusbarDebug/devices/dev_sictrl.cpp:247-253 | The same for setBusbarStartLineVol and the line addressed of a start box; exact where the arguments fit |
| RtuReadBack.StartPowReadsBack | BusbarDebug/devices/dev_sictrl.cpp:239-245 | The same for setBusbarStartPow and the total power; exact where the arguments fit |
| RtuReadBack.ZeroLineIsNotReadBack | BusbarDebug/devices/dev_sirtu.cpp:604-604 | After setBusbarInsertZeroLine the parsed packet is what it was, whatever the arguments: its registers are never read |
| RtuReadBack.BaudReadsBack | BusbarDebug/devices/dev_sictrl.cpp:207-213 | After setBusbarInsertBaud just the baud rate differs in the parsed packet; it is the low byte of the argument, so the argument itself if and only if that fits a byte |
| RtuReadBack.IOFReadsBack | BusbarDebug/devices/dev_sictrl.cpp:215-221 | The same for setBusbarInsertiOF |
| RtuReadBack.BuzzerReadsBack | BusbarDebug/devices/dev_sictrl.cpp:223-229 | The same for setBusbarInsertBuzzer |
| RtuReadBack.FilterReadsBack | BusbarDebug/devices/dev_sictrl.cpp:231-237 | The same for setBusbarInsertFilter and the alarm time |
| RtuReply.UpalarmIsNeverParsed | BusbarDebug/devices/dev_sirtu.cpp:399-405 | After any number of replies, whatever they hold, the alarm kept with each temperature is the one from before |
| RtuReply.PlugsLeaveStartFields | BusbarDebug/devices/dev_sirtu.cpp:592-606 | After any number of plug-box replies the fields that only start boxes send are those from before |
| BoxData.Box.LoopObjData | BusbarDebug/devices/dev_sirtu.cpp:137-161 | Row id of the columns becomes the line, every limit in both its places; all other rows stay |
| BoxData.Box.LoopData | BusbarDebug/devices/dev_sirtu.cpp:163-173 | The rows below the reported number are the packet's lines, those from there on stay |
| BoxData.Box.EnvData | BusbarDebug/devices/dev_sirtu.cpp:175-185 | The first four entries are the packet's sensors, each with its own tem.upalarm; the others stay |
| BoxData.ReadPduData | BusbarDebug/devices/dev_sirtu.cpp:245-280 | Result, packet and record in every case: refreshed, rows, sensors, settings, total power, currents and unbalances, only by an accepted reply of the box that was asked; else counted as off line and otherwise untouched |
| BoxData.RefreshedOnce | BusbarDebug/devices/dev_sirtu.cpp:254-272 | What a refreshed record must hold determines it: one packet makes one record |
| RegisterMap.PlugLoopParsed | BusbarDebug/devices/dev_sirtu.cpp:477-507 | By the numbers, for any registers: voltage of loop i + 1 is register 16 + 15i, current 18 + 15i, power, reactive and apparent power 20, 23 and 25 + 15i with the high word first, power factor 27, switch 28, energy 29 + 15i, limits 173 + 8i onwards |
| RegisterMap.PlugSetupParsed | BusbarDebug/devices/dev_sirtu.cpp:460-475 | Address, function, length and the low bytes of registers 0 to 8 of a plug box, number of loops in register 2 |
| RegisterMap.PlugSensorParsed | BusbarDebug/devices/dev_sirtu.cpp:521-535 | Temperature i + 1 of a plug box is register 157 + 2i, its alarm the next, its limits 165 + 2i onwards |
| RegisterMap.PlugLoadParsed | BusbarDebug/devices/dev_sirtu.cpp:509-519 | Harmonics and load percentages of a plug box are registers 151 to 156 |
| RegisterMap.StartLineParsed | BusbarDebug/devices/dev_sirtu.cpp:348-375 | The same for line i + 1 of a start box: seventeen registers from 19 on, limits ten from 301 on, the breaker as the switch of each line |
| RegisterMap.StartParsed | BusbarDebug/devices/dev_sirtu.cpp:324-346 | What a start box says of itself, registers 0 to 13, and its totals, 70 to 83 and 292 to 300 |
| RegisterMap.StartSensorParsed | BusbarDebug/devices/dev_sirtu.cpp:399-405 | Temperature i + 1 of a start box is register 84 + 2i, its limits 284 + 2i onwards |
| RegisterMap.StartLoadParsed | BusbarDebug/devices/dev_sirtu.cpp:407-417 | Harmonic k of line i + 1 of a start box is register 92 + 64i + k for the voltage and 124 + 64i + k for the current; the load is 35 + 17i |
| RegisterMap.PlugLoopRecorded | BusbarDebug/devices/dev_sirtu.cpp:137-161 | The record of a plug box has each of these values in its row, limits in both places; the number of rows is register 2 |
| RegisterMap.StartLineRecorded | BusbarDebug/devices/dev_sirtu.cpp:137-161 | The same for the three lines of a start box |
| RegisterMap.SensorRecorded | BusbarDebug/devices/dev_sirtu.cpp:175-185 | The temperatures recorded are the registers, the alarm is the packet's old one |
| RegisterMap.PlugSettingsRecorded | BusbarDebug/devices/dev_sirtu.cpp:187-203 | Field by field: the recorded settings of a plug box are its registers, and what it does not send is what the packet held |
| RegisterMap.StartRecorded | BusbarDebug/devices/dev_sirtu.cpp:187-203 | Field by field: the recorded settings and totals of a start box are its registers |
| BoxData.OneLineMore | BusbarDebug/devices/dev_sirtu.cpp:163-173 | Packets that differ in one line make records that differ in that row at most, and not at all if the box reports fewer lines |
| BoxReadBack.InsertVolArrives | BusbarDebug/devices/dev_sictrl.cpp:287-293 | From command to record: the record read after the command is the one read without it, with the two limits in both their places of the addressed row if the box reports that loop, and the very same if it does not. Any registers, loop and arguments; each limit is the argument if and only if that fits its field |
| BoxReadBack.InsertCurArrives | BusbarDebug/devices/dev_sictrl.cpp:279-285 | The same equality of records for the current limits; each limit is the argument if and only if that fits its field |
| BoxReadBack.InsertPowArrives | BusbarDebug/devices/dev_sictrl.cpp:295-301 | The same equality of records for the power limits; each limit is the argument if and only if that fits its field |
| BoxReadBack.InsertTemArrives | BusbarDebug/devices/dev_sictrl.cpp:263-269 | The same for the addressed sensor, whatever the number of loops; each limit is the argument if and only if that fits its field |
| BoxReadBack.InsertZeroLineDoesNotArrive | BusbarDebug/devices/dev_sictrl.cpp:271-277 | The record after setBusbarInsertZeroLine is the one without it, whatever the arguments |
| BoxReadBack.InsertBaudArrives | BusbarDebug/devices/dev_sictrl.cpp:207-213 | The record differs in the baud rate alone, which is the argument if and only if that fits a byte |
| BoxReadBack.InsertiOFArrives | BusbarDebug/devices/dev_sictrl.cpp:215-221 | The same for iOF |
| BoxReadBack.InsertBuzzerArrives | BusbarDebug/devices/dev_sictrl.cpp:223-229 | The same for the buzzer |
| BoxReadBack.InsertFilterArrives | BusbarDebug/devices/dev_sictrl.cpp:231-237 | The same for the alarm filter |
| BoxReadBack.StartPowArrives | BusbarDebug/devices/dev_sictrl.cpp:239-245 | The record of a start box differs in the limits of the total power alone; each limit is the argument if and only if that fits its field |
| BoxReadBack.StartLineVolDoesNotArrive | BusbarDebug/devices/dev_sirtu.cpp:137-161 | The limits of setBusbarStartLineVol reach the packet and leave no trace in the record |
| BoxReadBack.PlugRecordShowsTheStartBox | BusbarDebug/devices/dev_sirtu.cpp:254-272 | The frequency, residual and zero-line current, total power and unbalances recorded for a plug box are those of the start box read before it, any number of plug boxes in between |
| BoxReadBack.SensorAlarmsAreOld | BusbarDebug/devices/dev_sirtu.cpp:175-185 | The temperature alarms recorded after any number of replies are those the packet held before the first of them |
| Collect.EnoughIsCeiling | BusbarDebug/snmp/snmp_pp/collect.h:63-76 | The blocks the invariant asks for are max(1, ceil(count / 25)) |
| Collect.SnmpCollection.constructor | BusbarDebug/snmp/snmp_pp/collect.h:83-84 | An empty sequence in one block |
| Collect.SnmpCollection.Single | BusbarDebug/snmp/snmp_pp/collect.h:89-93 | A sequence of one element, which is a clone |
| Collect.SnmpCollection.Append | BusbarDebug/snmp/snmp_pp/collect.h:144-164 | The sequence grows by the element at its end, no element moves, and a block is added exactly when all are full |
| Collect.SnmpCollection.Copy | BusbarDebug/snmp/snmp_pp/collect.h:98-123 | An equal sequence in blocks of its own |
| Collect.SnmpCollection.Assign | BusbarDebug/snmp/snmp_pp/collect.h:169-199 | Afterwards both are the assigned sequence, also when they are one object; no block is shared |
| Collect.SnmpCollection.At | BusbarDebug/snmp/snmp_pp/collect.h:206-223 | The element at an index inside, else the empty element |
| Collect.SnmpCollection.GetElement | BusbarDebug/snmp/snmp_pp/collect.h:249-260 | The element and 0 inside, -1 outside |
| Collect.SnmpCollection.SetElement | BusbarDebug/snmp/snmp_pp/collect.h:230-242 | One element replaced and the old one freed, or -1 and no change |
| Collect.SnmpCollection.Find | BusbarDebug/snmp/snmp_pp/collect.h:298-310 | Whether the element is there, and its first index |
| Collect.SnmpCollection.Remove | BusbarDebug/snmp/snmp_pp/collect.h:315-339 | The sequence without the first equal element; the others keep their order |
| Collect.RemovesOne | BusbarDebug/snmp/snmp_pp/collect.h:315-339 | Removing takes away one occurrence, if there is one, and nothing else |
| Collect.SnmpCollection.Clear | BusbarDebug/snmp/snmp_pp/collect.h:344-375 | Empty afterwards; every element and every block but the head is freed exactly once |
| Collect.SnmpCollection.FreeBlocks | BusbarDebug/snmp/snmp_pp/collect.h:362-370 | The blocks are freed from the last to the second, and none is touched after it has been freed |
| MacAddr.ByteArrayToHexStr | BusbarDebug/common/common.cpp:70-76 | Pushing spaces in between gives two digits and a space per byte, for any number of bytes |
| MacAddr.SpacedAt | BusbarDebug/common/common.cpp:70-76 | Byte i is at 3i: the digit of its upper half, that of its lower half, capitals, and a space |
| MacAddr.ToLittleEndian | BusbarDebug/common/network/macaddr.cpp:78-89 | The six low bytes of the number, highest first |
| MacAddr.FromBigEndian | BusbarDebug/common/network/macaddr.cpp:66-76 | The number six bytes stand for |
| MacAddr.IntToMac | BusbarDebug/common/network/macaddr.cpp:105-111 | Six bytes as capital digits with dashes between them |
| MacAddr.GetMacArray | BusbarDebug/common/network/macaddr.cpp:41-64 | The six bytes of an address, if all its separators are dashes, and otherwise none |
| MacAddr.MacToInt | BusbarDebug/common/network/macaddr.cpp:91-103 | The number of an address, below 2 to the 48; 0 for a string that is none |
| MacAddr.NumberByDigits | BusbarDebug/common/network/macaddr.cpp:66-103 | The number of an address is that of its twelve digits, small or capital, the first highest |
| MacAddr.NumberOfPrinted | BusbarDebug/common/network/macaddr.cpp:91-111 | macToInt(intToMac(v)) is v modulo 2 to the 48, so v itself below that |
| MacAddr.PrintedNumber | BusbarDebug/common/network/macaddr.cpp:91-111 | intToMac(macToInt(s)) is s in capitals, for every address with dashes |
| MacAddr.MacAdd | BusbarDebug/common/network/macaddr.cpp:134-141 | The printed sum with colons, or the argument itself if the sum is zero |
| MacAddr.MacCnt | BusbarDebug/common/network/macaddr.cpp:143-150 | The difference of the two numbers, cut to an int |
| MacAddr.CountIsDifference | BusbarDebug/common/network/macaddr.cpp:143-150 | macCnt is the difference of the two numbers if and only if that fits an int, and congruent to it modulo 2 to the 32 always |
| MacAddr.CountOfAdded | BusbarDebug/common/network/macaddr.cpp:134-150 | macCnt(m, macAdd(m, k)) is k if and only if the sum is not zero or k is: for all addresses and all steps |
| MacAddr.NumbersAddUp | BusbarDebug/common/network/macaddr.cpp:134-141 | For every address and all steps: adding j and then k gives the number that adding j + k gives, if and only if j or k is 0, or neither sum on the way is zero and the total is not, or is where the address is zero itself |
| MacAddr.StepsLost | BusbarDebug/common/network/macaddr.cpp:134-141 | 00:00:00:00:00:05 less 5 plus 7 is ...:0C, and plus 2 is ...:07 |
| MacAddr.AddedTwice | BusbarDebug/common/network/macaddr.cpp:134-141 | macAdd(macAdd(m, j), k) is macAdd(m, j + k), as text, if and only if the numbers add up and m is an address in capitals or both sides or neither are handed back unprinted: for every address and all steps |
| VoltageCheck.AdResulting.VolErrRangeByID | BusbarDebug/adjust/ad_resulting.cpp:109-127 | True exactly within the tolerance, and then the line is marked |
| VoltageCheck.InRangeByThousandths | BusbarDebug/adjust/ad_resulting.cpp:109-127 | In range means off by no more than curErr thousandths of the voltage |
| VoltageCheck.AdResulting.VolErrRange | BusbarDebug/adjust/ad_resulting.cpp:129-149 | One to six readings; with at least one line the result is true exactly if every line of the last reading is in range, no reading before it was, and false only after six; and the mark of every line in the end. The loop ends by retries left, then lines left |
| VoltageCheck.MarkedByOneMore | BusbarDebug/adjust/ad_resulting.cpp:129-149 | Marks left by several readings are those of the one that got furthest |

## Left out

- DesConforms.CoreConforms: the macro variants of D_ENCRYPT and the 8-byte words are not modelled; the plain indexed form on 32 bits is.
- DesWeakKeys.IsWeakKey: the size of a pointer, four or eight, is a parameter.
- DesFcrypt.DesFcrypt: salt characters are below 128, as the index of con_salt demands; key checking is off, as by default; the password ends at its length or at the first NUL.
- DesCbc.NcbcEncrypt: input and output are the same buffer or do not overlap; buffers that overlap in part, and negative lengths, are excluded. The vector does not overlap either.
- LockedFileSteps.StepKeeps: one lock object per process; the file stays open; a wait for one mutex fails only by timing out, and one that finds it abandoned acquires it; a wait for several, which the code takes for failed when a mutex was abandoned, may take that branch with the mutexes held whether or not an owner has died; OpenMutex fails only if the name does not exist. A normal exit is a crash outside the calls.
- LockedFileLaws.NoDeadlock: says that some process can always go on, not that each gets its turn; the system mutexes are not fair. The Unix lock by fcntl is not modelled.
- LocalPeer.OneServer: the outcome of server->listen is ignored, as the code ignores it for its result. The message exchange between client and server is not modelled.
- RtuFrames.SendWithRetries: the serial port, its timeouts and the reply to a write are one outcome per attempt.
- RtuReadBack.PowReadsBack: the device is one that stores what it is told; resetting energy by writing 1 is left to the device and not modelled.
- BoxData.ReadPduData: the reply is an input; the reported number of loops is at most nine, which the code does not check; the harmonics and load percentages, which go to the record and to the shared memory beside it, are not part of it.
- The two older reply formats (recvDcData, recvAcData) and the settings parsed from them.
- Collect.SnmpCollection.GetElement, Collect.SnmpCollection.SetElement: an index equal to the count is excluded; the code lets it through to a place without an element.
- The places of a block are a sequence inside the block; memory that runs out is not modelled.
- MacAddr.MacToInt: addresses with a comma, or with a colon where the caller does not replace it, are excluded, since the code reads outside an array for them.
- VoltageCheck.AdResulting.VolErrRange: what the box reports is any stream of readings; the texts, delays and progress messages are left out.
- The other checks of ad_resulting.cpp (currents, power, energy), which have the same tolerance and no rewinding.
- All widgets, the database, printing, e-mail, and the SNMP sessions themselves.
