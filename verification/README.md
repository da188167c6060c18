# Serin Link controller: verified model

This project models four parts of the Serin Link controller component and proves what they are for. The source files
are cited by path and line below.

- **Arithmetic under the signatures** (`mod_l`, `field25519`, `group`, `scalars`, `sliding`, `comb`, on `words`).
  Reduction modulo the group order over 32-bit words, the radix-2^25.5 field, the sliding-window ladder and the signed
  comb. Machine words are subset types of `int`, so every store is checked for overflow; a curve point is an element of
  an abstract abelian group.
- **Streaming hashes and the key derivation** (`sha512`, `sha256`). The contexts keep the message as ghost state, and
  every call says how the message grows. `sha_roots` and `sha_standard` check the tables and functions they rest on
  against FIPS 180-4: the constants as roots of primes, the word functions, the first step of its examples, the padding.
- **The controller core.** `link_state`, `wifi_session` and `link_spec` say what each function does to the whole state,
  as a function of the state, the call and the world's answers (`Env`: clock, saves, peer installs, hook results).
  `link` is the object itself, fields and slot array updated in place, with every method proved to be that function
  (`link_steps` has the lemmas for it). `link_run` composes the calls into runs in which any save or install may fail
  and the power may be lost during any call. Over those runs: `link_table` and `link_history` (the stored table, crash
  recovery, pinned identities, proved keys), `link_pairing` and `link_candidate` (the candidate), `link_guard` (the
  replay guard), `link_peers` (the radio), `wifi_history`, `wifi_frame`, `link_wifi`, `wifi_story` and `wifi_lasting`
  (the setup session), `link_sync` and `link_age` (STATE convergence), `link_log` (what stays in the log),
  `link_safety` (everything from power-up). What calls bring about: `link_window` (how a pairing opens, what is answered
  and how long it lasts), `link_receive` and `link_accept` (what each received frame achieves, and that its dial is live),
  `link_says` (everything a pass sends), `link_service` (commands, cancels, starts, forgets). `link_frame` says which
  functions leave the table alone. `bonds` is the store codec, `pair_auth` the key confirmation.
- **Around the core** (`rxq`; `room_ids`, `room_source`, `room_feed`, `room_story`, `room_beat`, `room_choice`,
  `room_arbiter`). The receive ring as interleaved atomic steps, and the choice of which room temperature reaches the heat pump, again as
  functions, runs and an object proved against them.

What the model takes from outside: the signature check and the Diffie-Hellman function are arbitrary functions; the
point tables hold the multiples they are documented to hold; the frames received are arbitrary bytes. The assumptions a
theorem needs are in its `requires`. `LinkSafety.PowerOn` shows that a controller just powered up meets every invariant
the theorems about runs start from, `Rxq.InitHolds` the same for the ring, and `RoomFeed.SetUpGood` and
`RoomBeat.SetUpBeats` for the room source. Two of the assumptions concern the
radio, and both are shown to be needed: a displaced peer can be put back (`LinkPeers.CancelNeedsRestore`), and no
pairing request names the broadcast address (`LinkPeers.PairReqPeers`).

Where the code and its comments differ, the model follows the code:

- The comment on `FE_CARRY` asks for |t0| < 2^63. The first rounding addition overflows within 2^25 of that bound; the
  proof needs t0 < 2^63 - 2^25 (`Field25519.RoundingOverflows`). The call sites stay below 2^62.
- The comment in `sl2_bond.h` says re-pairing resets the replay latch. `pair_commit` sets it, which is what makes
  `LinkHistory.Pinned` true across re-pairings.
- `sl2_room_source_id_mac` is called the exact inverse of `sl2_room_source_mac_id`. It accepts every id of the namespace, so
  it is the inverse only for ids whose second byte is zero (`RoomIds.MacOfIdInverse`). The catalog checks compare whole
  ids, so such an id is never accepted, and a stored one is dropped at start (`RoomStory.AliasUnlisted`).

Three promises hold up to an exact condition, which is proved with the input that breaks it:

- A pass leaves a live dial with an outdated STATE when the dial is not due by the 32-bit clock although its last STATE
  went out a whole wrap of that clock ago (`LinkAge.TickAge`, `LinkAge.WrapHides`). A loop that keeps running never gets
  there (`LinkAge.AlwaysYoung`).
- The heartbeat repeats only what has been fired since the selection. A source selected while it cannot be heard from
  stays silent until it reports, and a value fired at clock reading 0 is not repeated (`RoomBeat.FreshExactly`,
  `RoomBeat.SilentUntilHeard`). Otherwise a reading once fired stays fresh (`RoomBeat.AlwaysFresh`).

- An accepted frame makes its dial live for 12.5 s unless it arrives just as the clock reads 0, which stands for never
  heard (`LinkAccept.HeardLives`).

`dafny verify dfyconfig.toml` checks the whole project.

## Model

| member | source | states |
|---|---|---|
| ModL.IsAboveL | esphome/components/serin_link/monocypher.c:1618-1631 | 1 exactly when the 256-bit input is at least the group order, decided only by the carry out of adding the order's two's complement; no carry leaves 64 bits |
| ModL.RemoveL | esphome/components/serin_link/monocypher.c:1634-1642 | takes the order off exactly when the input reaches it, with output and input the same array or not |
| ModL.Multiply | esphome/components/serin_link/monocypher.c:1605-1614 | adds the full 512-bit product to the low words already in the accumulator, overwriting the high words unread; no limb product with its carry leaves 64 bits |
| ModL.BarrettQuotient | esphome/components/serin_link/monocypher.c:1648-1666 | the quotient from the precomputed reciprocal is the true one or one less, for every input below 2^512 |
| ModL.LowProduct | esphome/components/serin_link/monocypher.c:1663-1675 | the truncated product differs from quotient times order by a multiple of 2^256 and nothing else |
| ModL.SubtractLow | esphome/components/serin_link/monocypher.c:1676-1682 | the in-place complement-and-add subtraction is exact modulo 2^256 |
| ModL.Reduce | esphome/components/serin_link/monocypher.c:1646-1688 | for every 512-bit input the 32 bytes written spell the input modulo the order: the off-by-one quotient, the 256-bit subtraction and one conditional removal are enough |
| ModL.EddsaReduce | esphome/components/serin_link/monocypher.c:1690-1696 | any 64 bytes are reduced to their residue modulo the order, in little-endian bytes |
| ModL.EddsaMulAdd | esphome/components/serin_link/monocypher.c:1699-1710 | (a*b + c) modulo the order for all 256-bit a, b and c, also when the result buffer is one of the operands |
| Field25519.CarryChain | esphome/components/serin_link/monocypher.c:1137-1150 | under the stated input bounds no 64-bit addition overflows, every limb comes out tight, and the value changes only by a multiple of p |
| Field25519.FeCarry | esphome/components/serin_link/monocypher.c:1029-1152 | the stored limbs are tight and denote the same residue; the first limb needs t0 < 2^63 - 2^25, slightly less than the source's comment asks |
| Field25519.RoundingOverflows | esphome/components/serin_link/monocypher.c:1077-1087 | a value inside the bound the comment gives for the first limb, whose rounding overflows 64 bits |
| Field25519.FeMul | esphome/components/serin_link/monocypher.c:1257-1303 | the product modulo 2^255-19 with tight limbs, no 32- or 64-bit overflow in any product, partial sum or carry for any limbs within the bounds the call sites give, result allowed to alias an operand |
| Field25519.FeSq | esphome/components/serin_link/monocypher.c:1313-1357 | the square with halved products is congruent to f*f modulo p, same bounds, same tight result, in place or not |
| Field25519.FeToBytes | esphome/components/serin_link/monocypher.c:1182-1228 | writes the unique representative in [0, p) of any bounded limb vector, negative ones included |
| Field25519.FeFromBytesMask | esphome/components/serin_link/monocypher.c:1160-1174 | limbs congruent to the little-endian value with the top nbMask bits cleared |
| Field25519.FeFromBytes | esphome/components/serin_link/monocypher.c:1176-1179 | limbs congruent to the low 255 bits, as section 5 of RFC 7748 decodes a coordinate |
| Field25519.Canonicalise | esphome/components/serin_link/monocypher.c:1176-1228 | encoding what was decoded is the low 255 bits modulo p |
| Field25519.EncodingUnique | esphome/components/serin_link/monocypher.c:1182-1192 | equal 32-byte values are equal byte strings, so the canonical encoding is a function of the residue |
| Field25519.FeIsEqual | esphome/components/serin_link/monocypher.c:1370-1380 | true exactly when the two limb vectors denote the same residue, however they are carried |
| Field25519.FeIsOdd | esphome/components/serin_link/monocypher.c:1360-1367 | the parity of the canonical representative, not of the limbs |
| Sliding.WindowDigit | esphome/components/serin_link/monocypher.c:1983-1993 | a window's value splits into a power of two and an odd digit small enough for the table of its width, by the bit tricks of the source |
| Sliding.SlideCtx.constructor | esphome/components/serin_link/monocypher.c:1949-1967 | the first position scanned is at or above every set bit, for scalars below 2^253 |
| Sliding.SlideCtx.Step | esphome/components/serin_link/monocypher.c:1970-1994 | keeps the invariant that digits so far, the digit pending and the bits unread spell the scalar; digits are odd and inside the table, a pending digit is used before the next is made, and the wrap of next_check below 0 is harmless |
| Sliding.OddTable | esphome/components/serin_link/monocypher.c:2020-2030 | the table built for the public key holds its odd multiples |
| Sliding.Ladder | esphome/components/serin_link/monocypher.c:2032-2050 | in any abelian group the fused ladder returns [s]B + [h](-A) for all s and h below 2^253 |
| Sliding.CheckEquation | esphome/components/serin_link/monocypher.c:2000-2060 | accepts exactly when both points decode, s is below the order, and eight times [s]B - [h]A - R is neutral (section 5.1.7 of RFC 8032) |
| Comb.SignedScalar | esphome/components/serin_link/monocypher.c:2206-2208 | the recoded bits read as signs +1 and -1 spell twice the recoded scalar minus 2^256 - 1 |
| Comb.AllRead | esphome/components/serin_link/monocypher.c:2192-2233 | the two combs together use each of the 256 recoded bits exactly once, with its own weight |
| Comb.LookupAdd | esphome/components/serin_link/monocypher.c:2170-2190 | adds the point multiplied by the signed sum of the four teeth at this column, found by complementing the index and negating |
| Comb.Recoding | esphome/components/serin_link/monocypher.c:2196-2208 | the two constants are what makes twice the recoded scalar, less 2^256 - 1, congruent to the scalar modulo the order |
| Comb.ScalarMultBase | esphome/components/serin_link/monocypher.c:2192-2236 | in any abelian group where the order times B is neutral, the result is [scalar]B for every 256-bit scalar |
| Sha512.CompressInPlace | esphome/components/serin_link/monocypher-ed25519.c:144-178 | with the message words overwritten in place every 16 rounds, the result is that of the 80-word schedule of section 6.4.2 of FIPS 180-4 |
| Sha512.ScheduleOrder | esphome/components/serin_link/monocypher-ed25519.c:161-165 | the source's order of the four additions makes the same schedule word as the standard's |
| Sha512.Sha512Ctx.Incr | esphome/components/serin_link/monocypher-ed25519.c:188-194 | a 128-bit counter in two words, carry included |
| Sha512.Sha512Ctx.SetInput | esphome/components/serin_link/monocypher-ed25519.c:180-186 | or-ing a byte into the buffer appends it, because everything past the index is zero |
| Sha512.Sha512Ctx.LoadWords | esphome/components/serin_link/monocypher-ed25519.c:228-262 | whole words stored over the buffer append their bytes |
| Sha512.Sha512Ctx.AlignWord | esphome/components/serin_link/monocypher-ed25519.c:222-227 | bytes up to the next word boundary are appended, and no more than there are |
| Sha512.Sha512Ctx.AlignBlock | esphome/components/serin_link/monocypher-ed25519.c:229-241 | words up to the block boundary are appended, and a full block is compressed |
| Sha512.Sha512Ctx.WholeBlocks | esphome/components/serin_link/monocypher-ed25519.c:244-253 | every whole block is compressed and nothing else is consumed |
| Sha512.Sha512Ctx.Update | esphome/components/serin_link/monocypher-ed25519.c:212-273 | the message hashed so far grows by exactly the bytes given, for every split across the three alignment phases |
| Sha512.Sha512Ctx.Final | esphome/components/serin_link/monocypher-ed25519.c:275-302 | the digest of everything fed in any number of pieces is the fold of the compression over the message padded as in section 5.1.2 of FIPS 180-4 |
| Sha512.Hash | esphome/components/serin_link/monocypher-ed25519.c:304-310 | the one-shot form is the same digest |
| Sha512.PadLength | esphome/components/serin_link/monocypher-ed25519.c:275-296 | the padded message is whole blocks for every length |
| ShaRoots.RoundConstants | esphome/components/serin_link/monocypher-ed25519.c:121-142 | the round constants of SHA-512 are the first 64 bits of the fractional parts of the cube roots of the first eighty primes, and those of SHA-256 the first 32 bits for the first sixty-four: for each there is the integer cube root they are the low bits of |
| ShaRoots.InitialStates | esphome/components/serin_link/monocypher-ed25519.c:196-210 | the initial states are the first 64, or 32, bits of the fractional parts of the square roots of the first eight primes |
| ShaRoots.PrimesInOrder | esphome/components/serin_link/monocypher-ed25519.c:121-142 | the primes these are told of are the primes in order from 2, none left out |
| ShaStandard.TruthTables | esphome/components/serin_link/monocypher-ed25519.c:114-115 | choice and majority have the truth tables of their names |
| ShaStandard.Mixing512 | esphome/components/serin_link/monocypher-ed25519.c:116-119 | where the four mixing functions of SHA-512 send single bits, from which every rotation and shift shows |
| ShaStandard.Mixing256 | include/serin_link/sl2_sha256.h:48-74 | the same for SHA-256 |
| ShaStandard.FirstStep512 | esphome/components/serin_link/monocypher-ed25519.c:144-178 | the state after the first round on the message abc is the one FIPS 180-4's example lists |
| ShaStandard.FirstStep256 | include/serin_link/sl2_sha256.h:50-74 | the same for SHA-256 |
| ShaStandard.FeedsForward512 | esphome/components/serin_link/monocypher-ed25519.c:144-178 | eighty rounds are run on the state, and each word of it is added to what comes out |
| ShaStandard.FeedsForward256 | include/serin_link/sl2_sha256.h:50-74 | sixty-four rounds, and the same addition |
| ShaStandard.Padding512 | esphome/components/serin_link/monocypher-ed25519.c:275-302 | a padded message is the message, a one bit, fewer zeros than a block, and its length in bits as 128 bits, in whole blocks |
| ShaStandard.Padding256 | include/serin_link/sl2_sha256.h:99-117 | the same with a 64-bit length |
| ShaStandard.Digests | esphome/components/serin_link/monocypher-ed25519.c:296-301 | a digest is the words of the state in order, most significant byte first |
| Sha256.Block | include/serin_link/sl2_sha256.h:50-74 | the single-block step is the compression of section 6.2.2 of FIPS 180-4 |
| Sha256.Sha256Ctx.Update | include/serin_link/sl2_sha256.h:84-97 | the message grows by exactly the bytes given, however they are split over the 64-byte buffer |
| Sha256.Sha256Ctx.Final | include/serin_link/sl2_sha256.h:99-117 | the pad loop ends, and the digest is that of the whole message padded as in section 5.1.1 of FIPS 180-4 |
| Sha256.ZerosLeft | include/serin_link/sl2_sha256.h:103-106 | the pad loop stops after exactly the number of zeros the standard asks for |
| Sha256.Hash | include/serin_link/sl2_sha256.h:119-124 | the one-shot form is the same digest |
| Sha256.HmacSha256 | include/serin_link/sl2_sha256.h:127-150 | HMAC as in section 2 of RFC 2104 for every key length, long keys hashed first |
| Sha256.ExpandBlock | include/serin_link/sl2_sha256.h:168-178 | one round is the HMAC of the previous block, the info and the counter, within the 288-byte buffer |
| Sha256.HkdfSha256 | include/serin_link/sl2_sha256.h:153-182 | the output is the prefix of T(1) | T(2) | ... of section 2.3 of RFC 5869 for every length up to 255*32 and info up to 255 bytes, with no counter value used twice, and nothing past the length written |
| Rxq.Distance | include/serin_link/sl2_rxq.h:53-57 | index distances below 2^32 survive the rollover of both counters |
| Rxq.StepKeeps | include/serin_link/sl2_rxq.h:50-79 | every atomic load, field copy and publish of either side keeps the ring's invariant, with the producer looking at a tail that may be out of date |
| Rxq.InitHolds | include/serin_link/sl2_rxq.h:43-43 | an empty ring satisfies the invariant every step keeps |
| Rxq.Safe | include/serin_link/sl2_rxq.h:50-79 | under every interleaving from an empty ring the frames delivered are a prefix of those accepted, in order and whole, no more than the slot count are in flight, and the slot being read is never the one being written |
| Rxq.Verdicts | include/serin_link/sl2_rxq.h:53-57 | a push is refused exactly when the tail it saw leaves no slot, and a pop finds nothing exactly when the head it saw has been reached |
| Rxq.Queue.constructor | include/serin_link/sl2_rxq.h:43-43 | a new ring is empty |
| Rxq.Queue.Push | include/serin_link/sl2_rxq.h:50-67 | accepts exactly the frames of legal length that find a slot, appends them, and counts each one dropped for a full ring |
| Rxq.Queue.Pop | include/serin_link/sl2_rxq.h:69-79 | delivers the oldest accepted frame not yet delivered, and nothing when there is none |
| Bonds.DecodeEncode | include/serin_link/sl2_bond.h:37-58 | what is saved is what is loaded, whatever bytes follow it in the buffer |
| Bonds.EncodeDecode | include/serin_link/sl2_bond.h:50-58 | every blob that loads is the encoding of what it loads as, so no two tables share a blob |
| Bonds.RecordLayout | include/serin_link/sl2_bond.h:18-35 | where each field is in the 62 bytes of a record |
| Bonds.BondsEncode | include/serin_link/sl2_bond.h:37-48 | refuses exactly the counts out of range and the buffers too small, leaving them untouched, and otherwise writes the encoding and nothing past it |
| Bonds.BondsDecode | include/serin_link/sl2_bond.h:50-58 | -1 exactly for a wrong format, an impossible count or short data, with the output untouched; otherwise the decoded table |
| PairAuth.TranscriptUnique | include/serin_link/sl2_pair_auth.h:10-24 | the packet type and both addresses can be read back from the authenticated bytes, so no two purposes share a tag input |
| PairAuth.TranscriptLayout | include/serin_link/sl2_pair_auth.h:10-24 | where the label, type, version and both addresses are in the 28 authenticated bytes |
| PairAuth.PairAuthMake | include/serin_link/sl2_pair_auth.h:10-24 | the tag is the HMAC under the link key of the domain, type, version and both addresses |
| PairAuth.PairAuthMatches | include/serin_link/sl2_pair_auth.h:27-34 | true exactly when type, version and all 32 tag bytes are the expected ones, whatever follows them |
| Link.Controller.DialByMac | src/sl2_link.c:15-19 | the first slot with the address, or none |
| Link.Controller.PersistBonds | src/sl2_link.c:27-32 | stores exactly the encoding of the proposed table, or leaves the store as it was, and tells which |
| Link.Controller.MarkAllStatePending | src/sl2_link.c:38-40 | every slot in use is marked and nothing else changes |
| Link.Controller.MarkOtherInfoPending | src/sl2_link.c:46-49 | every other slot's INFO throttle is cleared and nothing else changes |
| Link.Controller.EpochOk | src/sl2_link.c:57-88 | the whole new state and verdict of the replay guard, the saved latch and the failed save included |
| Link.Controller.RoomEpochOk | src/sl2_link.c:93-101 | the whole new state and verdict for room packets |
| Link.Controller.WifiEpochOk | src/sl2_link.c:105-111 | the whole new state and verdict for session packets |
| Link.Controller.WifiRetire | src/sl2_link.c:119-128 | the dial's history array and cursor take the session, and nothing else changes |
| Link.Controller.WifiQueueSetup | src/sl2_link.c:136-152 | the whole new state of a requested start, with the takeover of the hotspot |
| Link.Controller.WifiObserveApClosed | src/sl2_link.c:157-166 | the whole new state when the hotspot is found closed |
| Link.Controller.WifiCancel | src/sl2_link.c:183-219 | the whole new state of a cancel: the verdict, the hook's call if there is one, the owner, the history and the acknowledgement |
| Link.Controller.BuildState | src/sl2_link.c:223-262 | the packet, and the one side effect on the setup session |
| Link.Controller.SendStateTo | src/sl2_link.c:264-270 | the frame sent and the slot's record of it |
| Link.Controller.EchoAll | src/sl2_link.c:273-284 | every live dial is sent the new STATE and every other one is marked |
| Link.Controller.PairCleanupCandidate | src/sl2_link.c:288-299 | the candidate's peer is replaced by the bonded one if there is one, and its secrets are gone |
| Link.Controller.PairStart | src/sl2_link.c:310-338 | the whole new state, an open window only being extended |
| Link.Controller.PairCancel | src/sl2_link.c:340-344 | the whole new state in each of the three phases |
| Link.Controller.DeriveKey | include/serin_link/sl2_crypto.h:51-67 | the link key is HKDF over the shared secret with both ephemeral keys as salt, in the dial-first order |
| Link.Controller.OnPairReq | src/sl2_link.c:357-443 | the whole new state of a pairing request, each refusal included |
| Link.Controller.PairCommit | src/sl2_link.c:446-483 | the whole new state of a commit, provided the candidate has a slot or there is a spare, as the callers ensure |
| Link.Controller.OnPairConfirm | src/sl2_link.c:521-540 | the whole new state of a confirmation, candidate or bonded |
| Link.Controller.OnRecv | src/sl2_link.c:508-683 | the whole new state for arbitrary bytes from anybody |
| Link.Controller.ServePulls | src/sl2_link.c:687-779 | the whole new state of the six parts, in order |
| Link.Controller.Tick | src/sl2_link.c:781-837 | the whole new state of one pass of the loop |
| Link.Controller.LoadBonds | src/sl2_link.c:870-882 | the slots are the stored table, fresh, or untouched when nothing loads |
| Link.Controller.Start | src/sl2_link.c:850-908 | the whole new state, every failing exit included; true exactly when the core is up |
| Link.Controller.Compact | src/sl2_link.c:935-937 | the slots behind the forgotten one move up in the array and the order is kept |
| Link.Controller.ForgetDial | src/sl2_link.c:918-947 | the whole new state, and whether anything was forgotten |
| Link.Controller.ForgetAll | src/sl2_link.c:949-961 | the whole new state, and whether the store took it |
| Link.Controller.CapsChanged | src/sl2_link.c:1005-1009 | the new sequence number modulo 256, saved if possible, and every dial marked |
| Link.Controller.Call | src/sl2_link.c:508-1009 | any public call on the object is one step of the runs the theorems below are about, and keeps the table invariant |
| LinkFrame.DialFrameKeeps | src/sl2_link.c:541-683 | beyond the guard no frame from a dial touches the bond table, the store, the radio's peers or the handshake; and a frame that echoes this boot's epoch does reach the guard |
| LinkFrame.TickKeeps | src/sl2_link.c:781-837 | a pass of the loop can at most close a handshake; it never touches the table or the store |
| LinkPairing.PairReqOutcome | src/sl2_link.c:357-443 | a pairing request does nothing, changes only the displayed result, broadcasts one answer and nothing else, makes a fully checked candidate and broadcasts one answer, or gives up the window without a word |
| LinkWindow.WindowOpens | src/sl2_link.c:310-341 | from no handshake a call opens the window, with the broadcast peer, the new ephemeral pair and listening displayed, if and only if the controller is up, a pair can be made and the radio takes the peer; otherwise the radio, the table and the log are left alone and the display reads idle |
| LinkWindow.WindowLasts | src/sl2_link.c:335-341 | the window so opened lasts as long as asked for: a pass of the loop ends it, as a timeout, if and only if that time is over, and else leaves the handshake as it is |
| LinkWindow.WindowExtends | src/sl2_link.c:318-325 | on an open handshake the call moves the deadline and nothing else, and the same law holds for the new window |
| LinkWindow.RequestOutcome | src/sl2_link.c:357-443 | what comes of every request, each exactly when it should: nothing, pin mismatch or full displayed, the same answer again for the candidate that repeats its request, the candidate's place and one answer for a first one, or a closed window if the radio refuses |
| LinkWindow.ConfirmLasts | src/sl2_link.c:438-440 | a candidate has 15 s from the request that made it one, and no longer than its window: a pass of the loop ends the handshake as a timeout exactly then |
| LinkWindow.KeysWiped | src/sl2_link.c:284-299 | whatever call ends a handshake with a candidate, the candidate's key and the ephemeral private key are wiped |
| LinkWindow.TranscriptBinds | include/serin_link/sl2_proto.h:267-276 | what is signed fixes every byte of the request before the signature |
| LinkWindow.KeyAgreement | include/serin_link/sl2_crypto.h:51-66 | with one shared secret both ends derive the same key, by HKDF salted with the dial's ephemeral key before the controller's |
| LinkWindow.Labels | include/serin_link/sl2_crypto.h:51-66 | the labels that keep the uses of the keys apart spell the texts of the source |
| LinkReceive.PairingCompletes | src/sl2_link.c:521-540 | a frame from the candidate changes the stored table, and then to the one proposed, if and only if it is unicast, proves the candidate's key and the save succeeds; then the window is closed as paired, the candidate's slot holds its bond and was heard now, and the log ends with the acknowledgement under its key; a failed save ends the handshake as a storage error with nothing sent; without a proof table and handshake stand |
| LinkReceive.ProofRepeated | src/sl2_link.c:521-540 | any other proof frame is acknowledged again if and only if it proves the key its dial is bonded under, and changes only when that dial was last heard |
| LinkTable.EpochTable | src/sl2_link.c:57-88 | the guard writes nothing, or the whole table with exactly this dial's latch added |
| LinkTable.CommitTable | src/sl2_link.c:446-483 | a commit writes nothing, or the whole table with exactly the candidate added or replaced, and RAM agrees |
| LinkTable.ForgetTable | src/sl2_link.c:918-947 | a forget writes nothing, or the whole table without exactly that dial, and RAM agrees |
| LinkTable.StartTable | src/sl2_link.c:850-908 | a start, successful or not, writes nothing and leaves RAM holding the stored table or nothing |
| LinkTable.ApplyTable | src/sl2_link.c:27-961 | every call keeps RAM equal to the stored table once started, and changes the stored table only by a latch after a correct echo, a proved commit, a forget or a forget-all, in one write |
| LinkHistory.RunTable | src/sl2_link.c:27-961 | the table invariant over every run with failing saves and power losses: at most four distinct bonds, RAM equal to the store, and a candidate that has the pinned identity or a free slot |
| LinkHistory.Recovery | src/sl2_link.c:27-32 | power lost at any point of any call in any run: the call had written at most one value, and a later start that succeeds runs on the table before the call or the one after it, never a mixture |
| LinkHistory.Pinned | src/sl2_link.c:377-391 | trust on first use: over every run a bonded dial keeps its identity, and its durable replay latch, unless a forget of it or of all reached the store |
| LinkHistory.NewKey | src/sl2_link.c:446-483 | a key or identity not stored before is the candidate's, and the call that stored it was a unicast proof of that key from its address |
| LinkGuard.StaleFrame | src/sl2_link.c:81-111 | a guarded frame that does not echo the boot's epoch does nothing but mark the dial for a STATE, for a dial the guard holds for, and for session packets and current room packets from anyone |
| LinkGuard.EchoEnforces | src/sl2_link.c:59-79 | after a first correct echo the guard holds at once, and the packet is accepted exactly when the latch is or can be saved |
| LinkGuard.EchoFrameEnforces | src/sl2_link.c:541-683 | the same for whole frames: from the first one with a correct echo the guard holds for its sender |
| LinkGuard.ApplyEnforcing | src/sl2_link.c:57-961 | no call loosens the guard within a boot, re-pairing and forgetting included |
| LinkGuard.GuardedBoot | src/sl2_link.c:57-961 | once it holds it holds through the rest of the boot, saved or not |
| LinkGuard.ReplayDead | src/sl2_link.c:57-111 | once the latch is durable, frames with another epoch are without effect in every later boot that has an epoch, until the dial is forgotten |
| LinkCandidate.CandidateFixed | src/sl2_link.c:357-483 | while a candidate is being confirmed no call changes its address, key, identity or confirmation deadline, and only an accepted request makes one |
| LinkCandidate.CandidateSilent | src/sl2_link.c:519-540 | while a candidate is being confirmed none of its frames is acted on but a proof of its key: nothing at all changes, or for a request only the displayed result does, or only one answer is broadcast |
| LinkCandidate.RunBacked | src/sl2_link.c:357-443 | from a state with no candidate, in every run each candidate being confirmed comes from a frame the controller received at some step of that run: a request signed by the candidate's identity, whose key is the one derived from it |
| LinkCandidate.EveryKeyProved | src/sl2_link.c:357-540 | every key that enters the table in a run was agreed in a signed request received at some step of that run, and then proved by a unicast confirmation from that address |
| LinkPeers.PairReqPeers | src/sl2_link.c:357-443 | where a displaced peer can be put back, a pairing request leaves the radio right if and only if it does not take the window for the broadcast address, which every otherwise acceptable request naming it does when it is installed and answered |
| LinkPeers.CancelNeedsRestore | src/sl2_link.c:288-299 | dropping a candidate leaves the radio right if and only if the peer it displaced can be put back or there was none |
| LinkPeers.CommitPeers | src/sl2_link.c:446-483 | after a commit, saved or not, the radio matches the table |
| LinkPeers.ForgetPeers | src/sl2_link.c:918-947 | after a forget, also of the candidate being confirmed, the radio matches the table |
| LinkPeers.StartPeers | src/sl2_link.c:870-890 | a start that succeeds leaves exactly the stored dials on the radio, and one that fails leaves none that should not be there |
| LinkPeers.ApplyPeers | src/sl2_link.c:288-961 | every call keeps the radio's peers right, under those two assumptions |
| LinkPeers.RunRadio | src/sl2_link.c:288-961 | over every run the radio has exactly the bonded dials under their keys, the candidate under the key being confirmed, and the broadcast peer while pairing is open |
| WifiHistory.RetirePushes | src/sl2_link.c:113-128 | the array and cursor are a queue of the last eight distinct retired sessions, and a verdict is recorded for its session alone |
| WifiHistory.SessionsDistinct | src/sl2_link.c:113-128 | at most eight sessions are remembered, no one twice, never 0 |
| WifiHistory.Remembered | src/sl2_link.c:113-128 | a session in the queue is still there after any further retirements as long as those behind it and the distinct others that joined leave it one of eight, repeats not counted |
| LinkWifi.TakeOverWifi | src/sl2_link.c:136-152 | a new ownership keeps the session invariants: the replaced session is retired and every queued start is dropped |
| LinkWifi.ObserveWifi | src/sl2_link.c:157-166 | noticing a closed hotspot keeps them |
| LinkWifi.CancelWifi | src/sl2_link.c:183-219 | a cancel keeps them, with the hook's call and every verdict |
| LinkWifi.CommitWifi | src/sl2_link.c:446-483 | a commit keeps them, with the session state of the re-paired dial wiped |
| LinkWifi.OneWaiting | src/sl2_link.c:136-152 | at most one dial has a start waiting |
| LinkWifi.RunWifi | src/sl2_link.c:113-219 | over every run a waiting start belongs to the live, uncancelled owner, the owner is bonded, its nonzero session is not among its dial's retired ones, every dial's array and cursor are the last eight distinct sessions the log says it retired, and the log obeys the hook rules |
| WifiStory.CancelStory | src/sl2_link.c:183-219 | in any log that obeys the rules, each cancel of the adapter named the session owning the hotspot then, nonzero, after that session's own start was carried out, and before any final verdict |
| WifiStory.SetupStory | src/sl2_link.c:725-729 | each start the adapter carried out was that of the owner at that moment, with no final verdict yet |
| WifiStory.RunStory | src/sl2_link.c:130-219 | the cancel rule for every cancel in every run of the controller |
| WifiStory.StartRefused | src/sl2_link.c:136-152 | a start is refused exactly when its session is retired or cancelled, and otherwise waits and owns the hotspot |
| WifiStory.LateStart | src/sl2_link.c:606-619 | a setup frame naming a retired session of its dial, or the cancelled owner's, changes nothing about the setup |
| WifiLasting.HistoryRun | src/sl2_link.c:113-219 | over every run without a power loss, a stored forget of the dial or of all, or a committed re-pairing of it, the dial stays bonded and its array and cursor hold what they held, pushed with exactly the sessions the log says it has retired since |
| WifiLasting.StaysRefused | src/sl2_link.c:136-152 | a session retired at one point of such a run is refused in every later state until eight other distinct sessions of that dial have taken the places, and in all that time no event gives it the hotspot or carries out a start of it |
| WifiLasting.RetiredGetsNothing | src/sl2_link.c:136-152 | in any log of the controller a session its dial remembers as retired neither becomes the owner nor has a start carried out |
| WifiStory.CancelRetires | src/sl2_link.c:183-219 | after a cancel its session can no longer start anything |
| LinkSync.TickConverges | src/sl2_link.c:781-837 | after every pass, by the wrapped clock, each live dial holds the current STATE or was sent one less than 250 ms ago, and was sent one less than 10 s ago in any case; on the pass itself the STATE goes to exactly the live dials that, marked if it has changed, were due; other dials are not counted live |
| LinkAge.TickServes | src/sl2_link.c:797-831 | what a pass does to the last STATE of each slot, told from the state before it: the current one, now, if the dial is live and, marked if the STATE has changed, due; otherwise nothing |
| LinkAge.TickAge | src/sl2_link.c:797-831 | a pass leaves a live dial holding the current STATE or truly sent one less than 250 ms ago, and truly less than 10 s ago in any case, if and only if before the pass the dial, marked if the STATE has changed, is due or its last STATE went out less than 2^32 ms ago |
| LinkAge.AlwaysYoung | src/sl2_link.c:781-837 | over every run from power-up with a clock that never runs back and passes less than 2^32 - 10000 ms apart while the controller is up, every pass leaves each live dial holding the current STATE or truly sent one less than 250 ms ago, and truly less than 10 s ago in any case |
| LinkAge.WrapHides | src/sl2_link.c:820-831 | the input on which that fails: a controller in order whose one dial, live and marked, was last sent an outdated STATE exactly 2^32 ms ago; the pass leaves it with that STATE |
| LinkSync.EchoAllSync | src/sl2_link.c:273-284 | the immediate fan-out leaves every dial with the new STATE or marked |
| LinkService.CommitMarks | src/sl2_link.c:446-483 | the slot a saved commit takes or re-keys holds the candidate's bond and is marked for a STATE |
| LinkSync.RunSync | src/sl2_link.c:264-284 | over every run, once a STATE has been built every dial is marked for one or was last sent exactly it |
| LinkState.TrueAge | src/sl2_link.c:820-831 | the 32-bit clock measures the true age of anything sent less than 2^32 ms ago, across the wrap |
| LinkService.CommandReaches | src/sl2_link.c:558-568 | an accepted command that took is followed at once by the new STATE to every live dial, and every other dial is marked for it |
| LinkService.CancelHonest | src/sl2_link.c:168-208 | without asking the adapter, closed is answered only while the hotspot is closed and recovery only while it is open, and a cancel while another session holds the hotspot is answered stale; without the hook it is unsupported, and a session retired for good is answered as it was then |
| LinkService.CancelRemembered | src/sl2_link.c:205-219 | the status acknowledged to the dial is the one remembered for the session, and the owner's queued start is dropped |
| LinkService.PairingExpires | src/sl2_link.c:785-795 | a handshake ends on a pass of the loop if and only if its window or the time to confirm has run out |
| LinkService.ForgetReports | src/sl2_link.c:918-947 | a forget reports exactly whether it happened; otherwise nothing changed, and if it did the dial is in no slot and is no candidate |
| LinkService.ForgetAllReports | src/sl2_link.c:949-961 | forgetting all reports exactly whether it was saved; otherwise nothing changed, and if it was there is no bond in RAM or in the store, no ownership and no handshake |
| LinkService.Starts | src/sl2_link.c:850-910 | a start succeeds if and only if the radio has an address, the identity is there and every stored dial is installed; then the slots are the stored table, the sequence number the saved one, and the epoch the boot's random number, 1 for 0 and none without one |
| LinkService.CapsTold | src/sl2_link.c:1005-1009 | new capabilities take the next sequence number, saved if the store takes it, and mark every dial for a STATE |
| LinkSafety.PowerOn | src/sl2_link.c:841-848 | a controller just reset satisfies every invariant for an empty, unreadable or duplicate-free store |
| LinkLog.RunCalm | src/sl2_link.c:446-961 | over a run the log only grows, and a dial's history is wiped only by a power loss, a forget or a commit that pairs it again |
| LinkAccept.AcceptedIsHeard | src/sl2_link.c:541-683 | a frame of a bonded dial updates the time the dial was last heard if and only if it is accepted, by length, version and replay guard, and the dial keeps its slot |
| LinkAccept.HeardLives | src/sl2_link.c:541-683 | after an accepted frame the dial is live for exactly 12.5 s of true time, unless the clock read 0 |
| LinkAccept.HeardServed | src/sl2_link.c:551-837 | a pass of the loop within that time leaves the dial holding the STATE it builds, or truly sent one less than 250 ms ago, and less than 10 s ago in any case, if the last is not a whole wrap of the clock old |
| LinkAccept.AcceptedTakes | src/sl2_link.c:550-683 | what each kind of accepted frame does: the wants of a probe, the command applied and the STATE fanned out, the start queued with its ownership, the report shown and passed on, the request noted with its arguments, the cancel answered, remembered, and asked of the adapter by the session that holds the hotspot |
| LinkAccept.RequestAnswered | src/sl2_link.c:570-779 | an accepted request for credentials, a catalog page or a source, and a start that is not refused, gets its own reply or hook call on the next pass within those 12.5 s |
| LinkAccept.ReplacedIsStale | src/sl2_link.c:136-152 | a session whose hotspot another start takes over is remembered as stale |
| LinkAccept.ClosedIsRemembered | src/sl2_link.c:157-166 | a session whose hotspot is found closed is remembered as closed |
| LinkSays.EchoSays | src/sl2_link.c:273-284 | the fan-out sends one STATE to each live dial in slot order, and nothing else |
| LinkSays.PullsSay | src/sl2_link.c:687-779 | a live dial's turn sends exactly the replies its requests and unthrottled pulls are due, once each and in order, and leaves no request |
| LinkSays.TickSays | src/sl2_link.c:781-837 | everything a pass sends, from the slots before it: per live dial in slot order the STATE if it is due, marked where the STATE has changed, then its replies; a choice of source that took lifts the info throttle of the dials after it |
| LinkSays.TickAnswers | src/sl2_link.c:687-837 | after a pass no live dial has a request left |
| LinkSafety.AlwaysSafe | src/sl2_link.c:508-1009 | all the invariants together over every run from power-up, and each candidate backed by a request received in it |
| RoomIds.MacRoundTrip | include/serin_link/sl2_proto.h:462-478 | an address written into an id is read back in its own namespace and in no other |
| RoomIds.MacOfIdInverse | include/serin_link/sl2_proto.h:468-478 | reading an id and writing it again gives it back if and only if its second byte is zero, where the comment claims an exact inverse |
| RoomIds.MacIdUnique | include/serin_link/sl2_proto.h:462-466 | different addresses have different ids |
| RoomIds.WriteId | include/serin_link/sl2_proto.h:462-466 | the byte-placing loop spells namespace, zero, address |
| RoomIds.ReadId | include/serin_link/sl2_proto.h:473-478 | the byte-taking loop reads the address of an id of the namespace, and nothing else's |
| RoomArbiter.Arbiter.ExtState | esphome/components/serin_link/serin_link.cpp:881-896 | the whole new state of a reading or a withdrawal |
| RoomArbiter.Arbiter.StatusNow | esphome/components/serin_link/serin_link.cpp:919-948 | the health of the selected source |
| RoomArbiter.Arbiter.SourceChanged | esphome/components/serin_link/serin_link.cpp:902-917 | the whole new state of an announcement |
| RoomArbiter.Arbiter.ApplySource | esphome/components/serin_link/serin_link.cpp:1334-1356 | the whole new state of a selection |
| RoomArbiter.Arbiter.Reconcile | esphome/components/serin_link/serin_link.cpp:1383-1411 | the whole new state of the reconciliation with the bond table |
| RoomArbiter.Arbiter.SourceSet | esphome/components/serin_link/serin_link.cpp:1413-1427 | the whole new state and answer of a dial's choice |
| RoomArbiter.Arbiter.Edit | esphome/components/serin_link/serin_link.cpp:973-1000 | the whole new state of an edit in a sensor frame |
| RoomArbiter.Arbiter.Take | esphome/components/serin_link/serin_link.cpp:1015-1075 | the whole new state of the reading in a sensor frame |
| RoomArbiter.Arbiter.Feed | esphome/components/serin_link/serin_link.cpp:950-1076 | the whole new state of a sensor frame |
| RoomArbiter.Arbiter.Pass | esphome/components/serin_link/serin_link.cpp:1892-1940 | the whole new state of the loop's heartbeat, stale edge and reconciliation |
| RoomArbiter.Arbiter.Choose | esphome/components/serin_link/serin_link.cpp:1429-1445 | the whole new state of a choice from the dropdown |
| RoomArbiter.Arbiter.Call | esphome/components/serin_link/serin_link.cpp:881-1940 | whatever happens to the object is one step of the runs below |
| RoomFeed.AnnounceGood | esphome/components/serin_link/serin_link.cpp:902-917 | an announcement is right by the feed's rules, and a Link just selected is announced with nothing: its cached reading was dropped |
| RoomFeed.TakeGood | esphome/components/serin_link/serin_link.cpp:1015-1117 | a reading is published to the heat pump only from the selected Link's own frame |
| RoomFeed.ApplyStepGood | esphome/components/serin_link/serin_link.cpp:881-1427 | every step keeps the feed's rules: what the views of the selection are, that everything fired was right, and that once the component is up the id names the heat pump, a declared source or a Link |
| RoomStory.EveryValue | esphome/components/serin_link/serin_link.cpp:881-1117 | over every run: 0 is fired only when the selection has just changed to the heat pump from something else, a declared source's value only while it is selected and as its latest reading not withdrawn, a dial's only while that Link is selected and as what it last reported after being selected |
| RoomStory.Announced | esphome/components/serin_link/serin_link.cpp:1334-1356 | the exact addition to the history: nothing unless the selection changed, nothing fired before the component is up, then 0, the source's current reading if it can be heard from, or nothing for a Link |
| RoomStory.PinSurvives | esphome/components/serin_link/serin_link.cpp:1383-1411 | the reconciliation leaves a pinned Link alone, with nothing fired or dropped, if and only if it is still bonded, in whatever slot |
| RoomChoice.ChoiceAnswered | esphome/components/serin_link/serin_link.cpp:1413-1427 | a dial's choice is answered stale catalog, bad source or OK exactly as its catalog is old, does not list the id, or does; on OK the id is selected, what it names is chosen and the history has exactly the selection and its announcement, and otherwise nothing changes |
| RoomChoice.DropdownChooses | esphome/components/serin_link/serin_link.cpp:1429-1445 | each place of the dropdown chooses the heat pump, the declared source or the bonded dial it stands for, and a place past the end nothing |
| RoomChoice.EditChooses | esphome/components/serin_link/serin_link.cpp:973-1000 | an edit in a dial's frame chooses the heat pump, the sender or its Bluetooth sensor, and nothing if it repeats the coarse choice or is unknown |
| RoomChoice.ReconcileSettles | esphome/components/serin_link/serin_link.cpp:1383-1411 | the reconciliation settles the retired automatic choice on the only bonded dial or the heat pump, keeps what is listed and turns anything else into the heat pump |
| RoomChoice.PassSettles | esphome/components/serin_link/serin_link.cpp:1892-1940 | a pass does so once a second while the component is up, and else leaves the selection alone |
| RoomChoice.StartSettles | esphome/components/serin_link/serin_link.cpp:1383-1411 | the start settles the stored selection against the bond table and fires nothing |
| RoomChoice.HearKeeps | esphome/components/serin_link/serin_link.cpp:881-896 | a reading or its withdrawal is what its source has from then on, and a withdrawal does not make it unheard |
| RoomChoice.HeardIsAnnounced | esphome/components/serin_link/serin_link.cpp:881-917 | a source that was heard is announced with what it last said when it is selected and the API is up |
| RoomChoice.ReportIsHealth | esphome/components/serin_link/serin_link.cpp:919-948 | a report of the pinned dial makes the source healthy for exactly the stale time, in true time, and stale after it |
| RoomChoice.NoReportNoHealth | esphome/components/serin_link/serin_link.cpp:919-948 | a pinned dial is unavailable exactly while no reading of its own with a sensor is on display |
| RoomChoice.PublishedAgain | esphome/components/serin_link/serin_link.cpp:1062-1075 | an unchanged temperature is fired again exactly once 30 s of true time have passed or it had gone stale |
| RoomChoice.StaleIsMarked | esphome/components/serin_link/serin_link.cpp:1914-1925 | a pass that checks marks the reading on display stale exactly when it is as old as the stale time |
| RoomChoice.PassChecks | esphome/components/serin_link/serin_link.cpp:1914-1925 | the stale check is done once a second while the feature is on and the component up |
| RoomChoice.OtherHealth | esphome/components/serin_link/serin_link.cpp:919-948 | the heat pump is always healthy, the Bluetooth sensor never known, and a declared source unavailable until heard, then healthy while it has a reading and the API is up |
| RoomChoice.NoTemperature | esphome/components/serin_link/serin_link.cpp:1012-1060 | a report without a temperature changes only whether the dial on display has a sensor, and without the feature none changes anything |
| RoomChoice.PublishedIsShown | esphome/components/serin_link/serin_link.cpp:1062-1117 | a published report of the pinned dial is on display with its time, and is what was last published |
| RoomChoice.BondedAreListed | esphome/components/serin_link/serin_link.cpp:1383-1420 | after a change of the bond table a dial is listed if and only if it is bonded |
| RoomBeat.FiresExactly | esphome/components/serin_link/serin_link.cpp:881-896 | in any state a run reaches with an external source selected, a step that leaves the selection alone fires exactly one value, the source's current reading at the time of the step, if it is a reading of that source or a heartbeat that is due, and otherwise none: not on a withdrawal, another source's reading, a dial's frame or a new bond table |
| RoomBeat.FreshExactly | esphome/components/serin_link/serin_link.cpp:1892-1906 | a pass of the loop leaves the selected source's value less than 30 s old in true time if and only if one was fired since the selection and either it still is, or the heartbeat is due: not fired at clock reading 0, its age not hidden by the clock's wrap, a reading not withdrawn, the API connected |
| RoomBeat.SilentUntilHeard | esphome/components/serin_link/serin_link.cpp:902-917 | a source selected when nothing could be announced stays silent through every run until it reports, whatever the API does meanwhile |
| RoomBeat.AlwaysFresh | esphome/components/serin_link/serin_link.cpp:1892-1906 | once a reading of the selected source was fired, every pass leaves it less than 30 s old in true time, over every run in which selection and reading stand, the API is up, passes are at most 2^32 - 30000 ms apart and nothing is fired at clock reading 0 |
| RoomStory.AliasUnlisted | esphome/components/serin_link/serin_link.cpp:1383-1420 | an id of the Link namespace with a nonzero second byte is never listed: a choice of it is refused and the reconciliation turns a stored one into the heat pump |
| RoomStory.FrameSpeaks | esphome/components/serin_link/serin_link.cpp:1015-1117 | a frame that edits nothing is fired exactly when the selected Link sent it with a temperature due for publication; the first after a selection and any that differs from the last published are due |

## Left out

- Signature, X25519 and curve formulas (`ge_add`, `ge_double`, point decoding), and primality: abstract functions and an abstract group.
- The numbers in the precomputed point tables: a hypothesis says which multiple each entry is; so is the order times B being neutral.
- Constant time, masks and wiping: a selection by mask is modelled as a comparison, an or of disjoint bits as a sum, and whether a tag differs rather than in which bits.
- Link.Controller.EpochOk: the log lines of the core, here and in every other method, are not modelled.
- Link.Controller.Call: a read of the store always succeeds when something is stored, a hook answers the same throughout one call, and the clock is read at most twice per call; calls do not re-enter the core from a hook.
- Link.Controller.OnRecv: of DIAL_INFO only the proof of liveness is kept; model names, firmware and the device certificate are not modelled, and a sensor report reaches the hook only as its sender and whether it is an edit.
- Link.Controller.Start: the controller's own identity is loaded or made outside the model; `env.identity` says whether that worked.
- Link.Controller.BuildState: the packet is the stamped sequence number and epoch with the device's report as opaque bytes.
- Link.Controller.ServePulls: the contents of CAPS, INFO, WIFI_RESP, the catalog page and the source acknowledgement beyond what decides later behaviour.
- Link.Controller.OnPairReq: the answer's transcript and signature input are not modelled; the signature is whatever the signer returns, or its failure.
- Rxq.StepKeeps: memory order is modelled as each side's acquire load seeing some published index, not as a weak-memory semantics; `Rxq.Queue` is the same code run without interleaving.
- RoomArbiter.Arbiter.Feed: the sender is always known, humidity and the per-slot rows are left out, and the clock is read once per step.
- RoomArbiter.Arbiter.Choose: entity publishing, names and log lines are left out; the catalog revision is given as current or not.
- RoomArbiter.Arbiter.ExtState: the Fahrenheit conversion happens before the model, which takes degrees as opaque integers and NaN as no reading.
- Monocypher parts the component does not call (Argon2, BLAKE2b, ChaCha20, Poly1305, AEAD, Elligator) and SHA-512's HMAC and HKDF, which it does not use for the link key.
- The adapter's `max_links` filter in front of the core: a pairing request it drops is one the core never receives.
- ESP-NOW, NVS and Wi-Fi driver calls, transport retries, diagnostics and configuration code generation: calls over libraries that are not part of this model.
- Read-only views of the core (`sl2_link_dial_view`, `sl2_link_pair_seconds_left` and the like): easy members.
