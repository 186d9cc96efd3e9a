# Verified model of the LunarCore firmware's cores

LunarCore is mesh-radio firmware. This project models the parts of it whose correctness rests on arithmetic,
protocol state or byte formats, in Dafny, and proves what they are for:

- `Field25519`, `FieldPow`, `FieldBytes`: arithmetic modulo 2^255 - 19 on ten signed limbs, its two addition
  chains, and its canonical serialisation.
- `EdwardsLaw`, `Edwards`, `EdwardsCodec`, `Ladder`, `Torsion`: the Edwards curve's extended-coordinate formulas, point
  decoding, the swap ladder and a group to see it work in; `X25519`: the Montgomery ladder with deferred swaps.
- `Poly1305`, `HashStream`, `Sha256`: accumulators and hashes fed in arbitrary chunks.
- `StreamCipher`, `Session`, `SessionRun`, `SessionStore`: the ratcheting session and its whole one-way runs.
- `Onion`: layers wrapped inside out and peeled outside in.
- `LoraPacket`, `Mesh`, `AckTracker`: the air format, duplicate cache, routing, flooding networks and
  retransmission.
- `Ota`, `OtaRun`: the update state machine and its whole runs.
- `PacketId`: packet ids across sleep, crashes and power loss.
- `Protobuf`, `MeshMessages`: the wire format and two messages.
- `Crc16`, `ByteFeed`, `Frame`, `Kiss`: the serial framings.
- `Gf256`, `AesTables`, `AesSbox`, `AesModes`, `Aes`, `AesCipher`: AES-128 in its two forms and its modes.
- `ModArith`, `SignedBits`, `Bytes`, `Words`, `Wrappers`: shared arithmetic and types.

Objects that update their fields are classes with those fields; a method's contract ties the new state to a
function of the old one, and the properties are lemmas about that function. Bounded words are modelled with their
bounds (`i64`, `i128`, `u32`, `u64` as ranges that every operation is shown to respect, bytes and 32-bit words as bit
vectors where the code works on bits). On integers `|`, `^` and `&` are the operators of `SignedBits`; shifts are
products and quotients, and masks of low bits remainders (`SignedBits.AndLow`). Inputs from hardware are parameters:
random bytes, times, and the flash driver's answers. HKDF, AES, tags and key agreement beneath the session and the
onion, and SHA-256 and Ed25519 verification beneath the updater, are arbitrary functions passed in; only
dh(a, pub b) = dh(b, pub a) is assumed. A slice is shorter than 2^31 bytes, as on the 32-bit target.

Where the code departs from what its documentation or the cited standards suggest, the code is modelled and the
difference is stated exactly: `X25519.CoordinateCorrect`, `X25519.Doubles`, `Poly1305.KeyCorrect`,
`SessionRun.OpenSealed`, `SessionRun.AllReceived`, `SessionStore.Late`, `Protobuf.StopsExactly`, `Frame.Corruption`,
`Kiss.StreamRecovered`, `LoraPacket.RoundTrip`, `MeshMessages.DataRoundTrip` and `Onion.Peel` each say on exactly which
inputs the intended property holds. The check code of an air packet is computed and compared but the comparison has no
effect, and `Parse` models that. The message field called the previous chain's length carries the sender's own receive
count, which the receiver compares with its own: `SessionRun.Deliver` and `SessionRun.AllReceived` say exactly which
deliveries that refuses, and `SessionRun.BlockedRun` that there are some.

Contracts that describe a loop (an encryption in place, a parser step) name a function that is defined by recursion
over the data and whose own properties are then proved; `Crypt`, `Fed`, `Written`, `Decrypted`, `Wrapped`, `Decode` and
`Encrypt` are the main ones.

## Model

| member | source | states |
|---|---|---|
| Field25519.Mul | src/crypto/ed25519.rs:179-212 | For limbs up to 2^28 in absolute value the product is the product of the values modulo 2^255 - 19, and the result's limbs are reduced, so it can be an operand again after a few additions |
| Field25519.CarryChain | src/crypto/ed25519.rs:316-352 | The rounded carry pass keeps the represented value up to the carry it hands back and leaves every limb small; no i64 or i128 overflow |
| Field25519.CarryMul | src/crypto/x25519.rs:305-353 | Carry pass and the final fold of 19 times the carry: same value modulo the prime, reduced limbs, for any column sums within 2^66 |
| Field25519.MulCong | src/crypto/ed25519.rs:179-212 | The ten column sums the code forms represent the product of the two values, modulo the prime |
| Field25519.ColumnBound | src/crypto/x25519.rs:158-212 | Every column sum of two operands bounded by 2^28 stays far inside i128 |
| Field25519.PartialSums | src/crypto/ed25519.rs:195-210 | Of every column all partial sums, added from left to right, stay below 2^66 in absolute value, as do their factors and products, so nothing in the multiplication leaves i128 |
| Field25519.Square | src/crypto/ed25519.rs:214-216 | Squaring is multiplication of the value by itself modulo the prime, with reduced limbs |
| Field25519.Add | src/crypto/ed25519.rs:154-161 | The sum has the sum of the values |
| Field25519.Sub | src/crypto/ed25519.rs:163-170 | The difference has the difference of the values |
| Field25519.AddWithin | src/crypto/ed25519.rs:154-170 | Limb bounds of sums, differences and negations add up, which is what keeps every operand of the point formulas in range |
| FieldPow.SquareTimes | src/crypto/ed25519.rs:223-289 | The squaring loops: n squarings of a power x^e give x^(e 2^n), limbs reduced throughout |
| FieldPow.Invert | src/crypto/ed25519.rs:223-255 | For every z the addition chain returns z^(p-2) = z^(2^255-21) modulo p |
| FieldPow.Pow22523 | src/crypto/ed25519.rs:257-289 | For every z the addition chain returns z^(2^252-3) modulo p |
| FieldBytes.FloorChain | src/crypto/ed25519.rs:89-152 | Ten floored carries split value + start exactly into a normal limb vector and q 2^255 |
| FieldBytes.QuotientIsFloor | src/crypto/ed25519.rs:89-112 | Started from (19 h9 + 2^24) >> 25, the q chain yields exactly floor(h / p) |
| FieldBytes.Dropped | src/crypto/ed25519.rs:113-135 | After adding 19 q the carry out of the top is q again, so dropping it leaves h mod p |
| FieldBytes.ToBytes | src/crypto/ed25519.rs:89-152 | For every limb vector bounded by 2^28 the 32 bytes are the little-endian encoding of the value reduced to [0, p) |
| FieldBytes.EncodingUnique | src/crypto/ed25519.rs:89-152 | There is one such string of 32 bytes for each residue |
| FieldBytes.LoadedIs | src/crypto/ed25519.rs:308-310 | The four shifted bytes joined by the operator for bitwise or are the little-endian number |
| FieldBytes.FromBytesValue | src/crypto/ed25519.rs:72-87 | The ten overlapping loads of 32 bytes with bit 255 ignored represent exactly that 255-bit number, limbs in range |
| FieldBytes.ReadThenWrite | src/crypto/ed25519.rs:72-152 | Reading any 32 bytes and writing them again reduces the number, bit 255 cleared, modulo p; strings already below p come back unchanged |
| EdwardsLaw.CrossRatio | src/crypto/ed25519.rs:418-432 | For two points on the curve the addition formulas' numerators and denominators satisfy e (Y1Y2 - X1X2) = g (Z1T2 + T1Z2) modulo p |
| EdwardsLaw.LawOnCurve | src/crypto/ed25519.rs:418-432 | The unified addition law maps points on the curve -X^2 + Y^2 = Z^2 + dT^2, XY = ZT to points on it, for every d and modulus |
| EdwardsLaw.LawCommutes | src/crypto/ed25519.rs:418-432 | The law is commutative |
| EdwardsLaw.LawIdentity | src/crypto/ed25519.rs:355-362 | (0, 1, 1, 0) is its identity, up to scaling |
| EdwardsLaw.LawInverse | src/crypto/ed25519.rs:434-442 | A point and its negation add up to the identity, up to scaling |
| EdwardsLaw.SameOnCurve | src/crypto/ed25519.rs:402-432 | Coordinates congruent modulo p, or scaled alike, stay on the curve |
| Edwards.Constants | src/crypto/ed25519.rs:46-61 | The limb constants: D2 represents twice D, and SQRT_M1 squared represents -1, modulo p |
| Edwards.PointAdd | src/crypto/ed25519.rs:418-432 | At limb level, through the bounded multiplication: the result is the addition law's point up to one common factor, it is on the curve when the operands are, and its limbs are again in range |
| Edwards.PointDouble | src/crypto/ed25519.rs:402-416 | At limb level: for a point on the curve the doubled point is the law applied to it twice over, up to one common factor, on the curve, limbs in range |
| EdwardsCodec.IsZero | src/crypto/ed25519.rs:295-297 | True exactly when the value is 0 modulo p |
| EdwardsCodec.IsNegative | src/crypto/ed25519.rs:291-293 | True exactly when the reduced value is odd |
| EdwardsCodec.CurveEquation | src/crypto/ed25519.rs:364-391 | If v x^2 = u for u = y^2 - 1 and v = d y^2 + 1 then (x, y, 1, xy) satisfies the curve equations |
| EdwardsCodec.CheckRoot | src/crypto/ed25519.rs:373-383 | A candidate root is accepted, as it is or times sqrt(-1), only if the result really satisfies v x^2 = u |
| EdwardsCodec.PointFromBytes | src/crypto/ed25519.rs:364-391 | Whatever 32 bytes are given, a decoded point is on the curve, has the encoded y modulo p, limbs in range, and has the encoded sign unless its x is zero |
| Ladder.CtSwap | src/crypto/ed25519.rs:489-505 | The masked exchange of all forty limbs swaps two points for choice 1 and leaves them for 0 |
| Ladder.BitOfValue | src/crypto/ed25519.rs:444-474 | The bit the loop extracts is that bit of the little-endian number |
| Ladder.LadderStep | src/crypto/ed25519.rs:444-474 | One step with its paired swaps takes (kP, (k+1)P) to (2kP + bit P, that plus P) |
| Ladder.ScalarMul | src/crypto/ed25519.rs:444-474 | For every 256-bit n the ladder returns a representative of nP, in every commutative group that the addition law implements on the points considered |
| Ladder.ClosedOnCurve | src/crypto/ed25519.rs:444-474 | Such a group with all curve points as its points exists, so the ladder stays on the curve whatever the scalar |
| Torsion.QuarterTurns | src/crypto/ed25519.rs:402-432 | A group that tells points apart: the four points (0, 1), (i, 0), (0, -1), (-i, 0) are a cyclic group of order four that addition and doubling compute |
| Torsion.Generator | src/crypto/ed25519.rs:57-61 | With the limbs of SQRT_M1 as x the point (i, 0) is one of those, at the first turn |
| Torsion.Multiple | src/crypto/ed25519.rs:444-474 | On those points the ladder is, with no hypothesis left, multiplication by the scalar: a point at turn j goes to a point that is at turn n j and at no other |
| X25519.Doubles | src/crypto/x25519.rs:382-397 | The first half of a step is x-only doubling on the Montgomery curve with coefficient 486666; against the standard's 486662 its z is too large by (4 x z)^2 |
| X25519.Adds | src/crypto/x25519.rs:382-397 | The second half is the differential addition of the two points given the coordinate of their difference |
| X25519.StepCong | src/crypto/x25519.rs:375-400 | A ladder step depends on its inputs only modulo p |
| X25519.Mul121666 | src/crypto/x25519.rs:220-227 | Multiplication by 121666 modulo p, limbs reduced |
| X25519.LimbStep | src/crypto/x25519.rs:382-397 | The limb-level step computes the step of the formulas modulo p and keeps every limb in range |
| X25519.CSwap | src/crypto/x25519.rs:281-288 | The masked exchange swaps for 1 and leaves for 0 |
| X25519.DeferredLadder | src/crypto/x25519.rs:375-400 | The loop that defers and merges swaps computes, for every scalar and point, what the ladder that swaps before and after each step computes |
| X25519.Clamp | src/crypto/x25519.rs:358-361 | The masks clear the low three bits of the first byte, clear the top bit of the last and set the one below |
| X25519.LastByteIgnored | src/crypto/x25519.rs:22-37 | The top limb is loaded from three bytes only, so a point is loaded as if its last byte were zero |
| X25519.CoordinateValue | src/crypto/x25519.rs:22-37 | The loaded limbs are reduced and represent the number of the first 31 bytes |
| X25519.CoordinateCorrect | src/crypto/x25519.rs:22-37 | The loaded coordinate is the one of section 5 of RFC 7748 exactly when the low seven bits of the last byte are zero |
| X25519.Agree | src/crypto/x25519.rs:356-405 | The whole function: clamped scalar, coordinate as loaded, plain ladder, and the reduced little-endian quotient x2 z2^(p-2) |
| Poly1305.JoinedWords | src/crypto/poly1305.rs:64-69 | A limb joined from the top of one 32-bit word and the next word shifted up, with what passes bit 31 lost, holds exactly those two fields |
| Poly1305.SplitValue | src/crypto/poly1305.rs:56-80 | The five 26-bit limbs cut from four words represent the 128-bit number |
| Poly1305.Convolve | src/crypto/poly1305.rs:81-95 | The five sums with the factors 5 r represent h r modulo 2^130 - 5 and none exceeds u64 |
| Poly1305.Carry | src/crypto/poly1305.rs:96-117 | The carry pass keeps the value modulo 2^130 - 5 and restores the limb bounds the next block needs |
| Poly1305.Accumulator.ProcessBlock | src/crypto/poly1305.rs:56-117 | h becomes (h + block + hibit) r modulo 2^130 - 5, without u32 or u64 overflow |
| Poly1305.Accumulator.Update | src/crypto/poly1305.rs:119-151 | However the message is cut into updates, h is the Horner sum of section 2.5 of RFC 8439 over the whole blocks of everything fed in, and the buffer holds the rest |
| Poly1305.Accumulator.FinishBlocks | src/crypto/poly1305.rs:153-163 | The last partial block, padded with 1 and zeros, completes the sum over the whole message |
| Poly1305.Accumulator.constructor | src/crypto/poly1305.rs:22-54 | A new accumulator has taken in nothing and multiplies by the key as loaded |
| Poly1305.KeyCorrect | src/crypto/poly1305.rs:22-30 | The loaded multiplier is the clamped key of RFC 8439 exactly when the first key byte's two low bits are zero |
| HashStream.Hasher.Update | src/crypto/sha256.rs:48-84 | Every chunking: after any updates the object has folded the compression function over the whole blocks of the concatenation and buffers the rest |
| HashStream.Hasher.Finalize | src/crypto/ed25519.rs:986-1012 | The state at the end is the fold over the concatenation with the padding of sections 5.1.1 and 5.1.2 of FIPS 180-4, for SHA-256 and SHA-512 geometry alike |
| HashStream.PaddingFits | src/crypto/sha256.rs:86-121 | The padded message is a whole number of blocks and no shorter padding would be |
| HashStream.PaddingIs | src/crypto/sha256.rs:86-121 | The number of zero bytes finalize writes, in one block or two, is that of the padding |
| HashStream.Hasher.ProcessBlocks | src/crypto/ed25519.rs:952-984 | The block loop of update folds in exactly the full blocks of the data |
| Sha256.Expand | src/crypto/sha256.rs:123-145 | The sixty-four schedule words follow the recurrence of section 6.2 of FIPS 180-4 |
| Sha256.Rounds | src/crypto/sha256.rs:146-180 | The round loop over eight variables computes sixty-four steps of the round function |
| Sha256.ProcessBlock | src/crypto/sha256.rs:123-190 | A block is compressed in place by the compression function |
| Sha256.HashOf | src/crypto/sha256.rs:192-197 | The digest is the big-endian state after folding over the padded data |
| StreamCipher.CryptInPlace | src/session.rs:290-309 | The chunk loop XORs byte i of the buffer with byte i mod 16 of keystream block i / 16 |
| StreamCipher.CryptTwice | src/session.rs:346-378 | Applying the stream twice gives the data back |
| Session.SessionObject.Encrypt | src/session.rs:268-323 | The message, its header, the next chain key and, at the hundredth message, the ratchet; errors leave the session alone |
| Session.SessionObject.Decrypt | src/session.rs:326-378 | Error order, ratchet on a new public key, key lookup, tag check, plaintext; the whole new state |
| Session.SessionObject.AdvanceSendRatchet | src/session.rs:398-425 | New pair, root and chain from the old root and the agreed secret, counters restarted |
| Session.SessionObject.AdvanceRecvRatchet | src/session.rs:428-444 | Root and receiving chain from the old root and the agreed secret, counter restarted |
| Session.SessionObject.SkipMessageKeys | src/session.rs:447-471 | Too many skipped keys are refused untouched; otherwise each passed number's key is stored |
| Session.SessionObject.GetMessageKey | src/session.rs:474-499 | A stored key is handed out once; otherwise the chain moves past the number |
| SessionRun.OpenSealed | src/session.rs:287-311 | A sealed message opens to itself exactly when it is at most 240 bytes, because the buffer holds 256 with the tag and push errors are ignored |
| SessionRun.SkipStores | src/session.rs:447-471 | Skipping advances the chain by the numbers passed and stores exactly their keys, for every chain |
| SessionRun.SenderInEpoch | src/session.rs:268-323 | Within an epoch of a hundred messages only the sending chain and the counter move |
| SessionRun.EpochStep | src/session.rs:398-425 | Each epoch's root, chain and public key are those of the sender's fresh pair against the receiver's key |
| SessionRun.TakeNew | src/session.rs:474-499 | A number ahead of the counter gets the sender's key and leaves exactly the passed numbers stored |
| SessionRun.TakeStored | src/session.rs:474-479 | A late number gets the sender's key from the store and only that entry goes |
| SessionRun.Follow | src/session.rs:336-341 | Skipping to the header's count and ratcheting to the new public key takes the receiver to the sender's next epoch, whatever that count and whatever of the old epoch was lost |
| SessionRun.Deliver | src/session.rs:326-378 | One delivery in the current or the next epoch: across an epoch it is refused, changing nothing, exactly when the header's count is more than a hundred beyond the receiver's; otherwise the two ends stay in step, and the plaintext sent comes out exactly when it is at most 240 bytes |
| SessionRun.InStep | src/session.rs:326-499 | The invariant of whole runs: after any arrivals that open no epoch too far on, the receiver's root, key, chain, counter and store match the sender's epoch |
| SessionRun.EveryPlaintext | src/session.rs:268-499 | Across any number of ratchets, with loss and reordering within epochs, a delivery decrypts to what was sent exactly when it does not open an epoch too far on and is at most 240 bytes; one that does is refused |
| SessionRun.AllReceived | src/session.rs:268-499 | A whole run returns every plaintext if and only if none is longer than 240 bytes and no epoch is opened too far on |
| SessionRun.NeverBlocked | src/session.rs:447-456 | No epoch is too far on while the sender has itself received at most a hundred messages of its current one |
| SessionRun.CountMoves | src/session.rs:344-356 | A header up to a hundred ahead under the current public key moves the receive count past its number, whether or not its tag is right |
| SessionRun.CountAdvances | src/session.rs:344-356 | Two headers numbered 100 and 201 beyond the receive count take it up by 202, from any established state with nothing stored ahead |
| SessionRun.BlockedRun | src/session.rs:336-341 | After two such headers at the sender there is a run whose second message opens an epoch too far on and is refused |
| SessionRun.StoredAfter | src/session.rs:447-499 | After any such run the keys stored for the current epoch are exactly the undelivered numbers below the receive counter |
| SessionStore.StoredBehind | src/session.rs:447-499 | The keys stored for an earlier epoch are exactly those of its undelivered numbers below the larger of its reached count and the count in the sender's headers |
| SessionStore.Behind | src/session.rs:447-499 | and each of them is the key the sender used |
| SessionStore.RatchetsTo | src/session.rs:336-344 | A header with any other public key is refused, changing nothing, when its count is too far on, and otherwise leaves the receiver at that key, whatever was stored |
| SessionStore.Late | src/session.rs:326-378 | A message that arrives after its epoch was left takes the receiver back to the old public key; its plaintext still comes out, if at most 240 bytes, when its number is below that larger count, and otherwise it is opened under a key of a fresh chain |
| Onion.Wrap | src/onion.rs:149-207 | Errors in order, and the layers from the last hop inward, each push refused when full |
| Onion.Unwrap | src/onion.rs:210-252 | Length, tag and zero-hint errors, the hint and the inner packet |
| Onion.UnwrapFinal | src/onion.rs:255-284 | Length and tag errors, and the decrypted inside |
| Onion.WrapFits | src/onion.rs:149-207 | Wrapping succeeds exactly for 3 to 7 hops and a packet that fits 256 bytes; no push then fails and the size is the payload's plus 18 a hop |
| Onion.OpenLayer | src/onion.rs:210-284 | The hop with the right private key and layer index opens its layer, reads the hint, and gets the inner bytes |
| Onion.Peel | src/onion.rs:149-284 | Along any route the hops report hints 2 to n in order and the last returns the payload, exactly when none of those hints is zero; otherwise NoMoreLayers |
| LoraPacket.ParseBuilt | src/meshtastic/packet.rs:20-116 | What is built parses to the same packet with channel cut to four bits and hop limit to three; building succeeds exactly up to 236 payload bytes; empty payloads do not parse |
| LoraPacket.RoundTrip | src/meshtastic/packet.rs:20-116 | The round trip is exact for exactly the nonempty payloads with channel below 16 and hop limit below 8 |
| LoraPacket.ParsedIsSmall | src/meshtastic/packet.rs:20-71 | Exactly the lengths 21 to 257 parse, whatever the check code, and give small fields |
| LoraPacket.ForwardParses | src/meshtastic/packet.rs:244-258 | A forwarded packet parses at the next node to itself with one hop less; it can be forwarded exactly with hops left and at most 236 payload bytes |
| Mesh.PacketCache.IsDuplicate | src/meshtastic/packet.rs:165-172 | True exactly if an entry has that nonzero sender and id |
| Mesh.PacketCache.CheckAndAdd | src/meshtastic/packet.rs:181-187 | Reports a duplicate and changes nothing, or writes the next of 32 slots in turn |
| Mesh.PacketCache.ClearOld | src/meshtastic/packet.rs:190-196 | Blanks exactly the entries older than the age |
| Mesh.RoutePacket | src/meshtastic/packet.rs:217-241 | The decision and the new cache |
| Mesh.Decides | src/meshtastic/packet.rs:217-241 | Exactly when a packet is forwarded and when it is delivered locally; afterwards its nonzero sender and id are in the cache |
| Mesh.ForwardsOnce | src/meshtastic/packet.rs:148-241 | Over any history a node forwards a given packet of a nonzero sender at most once, until a clean-up or 32 further entries |
| Mesh.RelayIsLighter | src/meshtastic/packet.rs:217-258 | All copies a node sends on together weigh less than the copy it heard, with weight (degree + 1) to the hop limit |
| Mesh.LoadFalls | src/meshtastic/packet.rs:217-258 | Every delivery or loss in any network lowers the total weight in flight; clean-ups leave it |
| Mesh.FloodEnds | src/meshtastic/packet.rs:217-258 | Every flood dies out: in any network no run has more arrivals than the weight in flight at its start |
| AckTracker.Tracker.Add | src/meshtastic/packet.rs:363-371 | The first free slot takes the packet, or nothing changes |
| AckTracker.Tracker.IsPending | src/meshtastic/packet.rs:374-378 | True exactly if some slot holds that destination and id |
| AckTracker.Tracker.HandleAck | src/meshtastic/packet.rs:381-391 | The first slot with that destination and id is freed |
| AckTracker.Tracker.GetRetransmit | src/meshtastic/packet.rs:394-411 | Spent slots are freed up to the first due one, which is sent and counted |
| AckTracker.AddMeans | src/meshtastic/packet.rs:363-371 | Accepted exactly when a slot is free; then one more is pending and its transmissions are added |
| AckTracker.AckMeans | src/meshtastic/packet.rs:381-391 | Accepted exactly when pending; one fewer is pending |
| AckTracker.RetransmitMeans | src/meshtastic/packet.rs:394-411 | Sending costs exactly one transmission of the budget; silence means nothing left is due |
| AckTracker.Bounded | src/meshtastic/packet.rs:354-418 | Over every run the retransmissions never exceed what the packets added allow |
| Ota.OtaManager.Begin | src/ota.rs:288-320 | Busy unless idle, fields reset, driver errors, then waiting for a header |
| Ota.OtaManager.WriteHeader | src/ota.rs:334-382 | Header bytes collected, checks in the code's order, the rest of the data written as firmware |
| Ota.OtaManager.WriteFirmware | src/ota.rs:385-424 | At most the remaining bytes hashed and flashed, counters, completion |
| Ota.OtaManager.VerifyAndFinish | src/ota.rs:427-459 | Hash mismatch aborts to idle, driver errors, else complete |
| Ota.OtaManager.VerifySignature | src/ota.rs:462-484 | True exactly if the header's key is trusted and verifies the signature over the firmware hash |
| Ota.OtaManager.Write | src/ota.rs:323-331 | Dispatch on the state, with the error each state returns |
| OtaRun.StepKeeps | src/ota.rs:257-505 | The invariant relating state, stream, flash and hash is kept by every operation and every driver answer |
| OtaRun.CompleteMeans | src/ota.rs:288-459 | Over any run, a completed update had its header in the first 144 bytes, version not below the minimum then in force, signature verified under a trusted key, and flashed exactly the announced bytes of the stream with the signed hash |
| OtaRun.WriteTwice | src/ota.rs:323-459 | Two writes leave the state one write of both leaves, from every state of a running update |
| OtaRun.CutsDoNotMatter | src/ota.rs:323-459 | With a working driver the final state, field for field, does not depend on how the stream is cut into writes |
| OtaRun.CompletesIff | src/ota.rs:288-459 | Exactly which streams complete: readable header without objection, a nonzero announced size fully present, the announced hash |
| PacketId.MixInverse | src/packet_id.rs:131-138 | The mixer has an inverse on all 32-bit words |
| PacketId.IdInjective | src/packet_id.rs:230-251 | Within a session two ids are equal exactly when their sequence numbers are |
| PacketId.PacketIds.Init | src/packet_id.rs:154-208 | Start-up from the saved slots: resume 256 further on, saturating, or draw a session; the slot writes in order |
| PacketId.PacketIds.NextPacketId | src/packet_id.rs:230-251 | The id returned, the counter, rotation at the end of the range, and the save at every multiple of 256 |
| PacketId.PacketIds.RotateInternal | src/packet_id.rs:254-268 | A drawn session from sequence 0, saved |
| PacketId.SavedPairs | src/packet_id.rs:154-268 | At every point between two slot writes the saved pair is the old one, the new session with the old sequence, or the new one |
| PacketId.StepKeeps | src/packet_id.rs:154-303 | The invariant of the two memories is kept by every operation, whole or cut short by a reset |
| PacketId.NoIdRepeats | src/packet_id.rs:154-303 | Over any run of starts, ids, rotations, resets between any two writes, invalidations and power losses, with session ids drawn fresh, no pair is issued twice and no two ids of a session are equal |
| PacketId.CloseBehind | src/packet_id.rs:154-251 | The next sequence number is never more than 256 beyond the saved one, which is what the skip on waking relies on |
| Protobuf.VarintRoundTrip | src/meshtastic/protobuf.rs:81-259 | Every 64-bit value is read back from its varint, whatever follows (Protocol Buffers Encoding, "Base 128 Varints") |
| Protobuf.ReadIsShortest | src/meshtastic/protobuf.rs:81-259 | No varint that reads as a value is shorter than the one written for it |
| Protobuf.ZigzagRoundTrip | src/meshtastic/protobuf.rs:97-266 | Every signed 32-bit integer survives the zigzag code ("Signed Integers") |
| Protobuf.FieldRoundTrip | src/meshtastic/protobuf.rs:109-342 | A written field of any wire type is read as that field, whatever follows |
| Protobuf.FieldPrefix | src/meshtastic/protobuf.rs:236-401 | A complete field does not depend on the bytes after it |
| Protobuf.DecodeConcat | src/meshtastic/protobuf.rs:554-597 | If a decodes, decoding a followed by b continues on b from a's result, for every message type ("Last One Wins") |
| Protobuf.UnknownFieldsSkipped | src/meshtastic/protobuf.rs:379-401 | An unknown well-formed field can stand between any two fields without effect |
| Protobuf.OutcomeIs | src/meshtastic/protobuf.rs:554-597 | Decoding with its three endings gives a record exactly when the fold over the fields does, and then that record |
| Protobuf.StopsExactly | src/meshtastic/protobuf.rs:334-342 | Decoding ends in a panic exactly when whole fields that decode are followed by a block whose length takes the cursor to 2^32 |
| Protobuf.PushFieldFits | src/meshtastic/protobuf.rs:115-147 | The buffer is never overrun and a field there is room for is written whole |
| Protobuf.ProtobufEncoder.WriteVarint | src/meshtastic/protobuf.rs:81-94 | Seven bits a byte, low first, until done or full |
| Protobuf.ProtobufEncoder.WriteSint32Field | src/meshtastic/protobuf.rs:123-129 | Zero is not written; else tag and zigzag varint |
| Protobuf.ProtobufEncoder.WriteBytesField | src/meshtastic/protobuf.rs:139-147 | Empty is not written; else tag, length and all of the bytes or none |
| Protobuf.ProtobufDecoder.ReadVarintHere | src/meshtastic/protobuf.rs:236-259 | Reads the varint at the cursor with 64-bit wrap, or fails at the end of data or after ten bytes |
| Protobuf.ProtobufDecoder.ReadBytes | src/meshtastic/protobuf.rs:334-342 | Length and bytes at the cursor, nothing when they run over the end, and a panic exactly when cursor plus length reaches 2^32 |
| Protobuf.ProtobufDecoder.SkipField | src/meshtastic/protobuf.rs:379-401 | Moves past exactly what a field of that wire type takes, or fails, or panics exactly when a block's length takes the cursor to 2^32 |
| MeshMessages.EncodeData | src/meshtastic/protobuf.rs:494-507 | The eight writes, each going on whether or not the last fitted |
| MeshMessages.DecodeData | src/meshtastic/protobuf.rs:554-597 | The decoding loop is the fold of the fields over the blank record, or nothing, or a panic, each exactly where the fold with those endings has it |
| MeshMessages.PushedInFull | src/meshtastic/protobuf.rs:494-531 | An encoding that fits is written in full and 237 bytes are never exceeded |
| MeshMessages.DecodeCost | src/meshtastic/protobuf.rs:554-597 | No string of bytes that decodes to a record is shorter than the record's own encoding |
| MeshMessages.DataRoundTrip | src/meshtastic/protobuf.rs:494-597 | A record comes back exactly when its encoding fits 237 bytes and its port is one the decoder knows |
| MeshMessages.DataMerges | src/meshtastic/protobuf.rs:494-597 | Two encodings one after the other decode to the second laid over the first |
| MeshMessages.EncodePosition | src/meshtastic/protobuf.rs:510-531 | The fifteen writes in the code's order |
| MeshMessages.DecodePosition | src/meshtastic/protobuf.rs:599-671 | The decoding loop is the fold of the fields over the blank record, or nothing, or a panic, each exactly where the fold with those endings has it |
| MeshMessages.PositionRoundTrip | src/meshtastic/protobuf.rs:510-671 | Every position comes back |
| Crc16.TableDoubles | src/protocol.rs:289-322 | The table's entries follow the shift register: entry 2i is one step on from entry i |
| Crc16.TableIsBits | src/protocol.rs:289-322 | Every entry is eight steps of the 0x1021 register from its index |
| Crc16.Checksum | src/protocol.rs:326-333 | The table loop computes the bitwise CRC on all inputs |
| Crc16.AdjacentChange | src/protocol.rs:326-333 | Any change confined to two adjacent bytes changes the CRC |
| Crc16.LastByteChange | src/protocol.rs:326-333 | A change of the last byte changes the CRC by a given low byte and nothing else only for 0x89 and 0xA1 |
| Frame.Encode | src/protocol.rs:109-139 | Sync, length, command, sequence, data, CRC low byte first, end byte |
| Frame.CommandRoundTrip | src/protocol.rs:18-76 | The command bytes and from_byte are inverse |
| Frame.FrameParser.Feed | src/protocol.rs:196-284 | One byte: the next state and the frame returned, if any |
| Frame.Sound | src/protocol.rs:196-284 | On any history of bytes, when a frame is returned the last bytes consumed are exactly its encoding |
| Frame.RunShape | src/protocol.rs:109-284 | Frame-shaped bytes from a waiting parser yield a frame exactly when CRC, end byte and command are right, and where the parser is left |
| Frame.Complete | src/protocol.rs:109-284 | Every encoded frame is returned, alone, and the parser waits again |
| Frame.NotBefore | src/protocol.rs:109-284 | Not before its last byte |
| Frame.StreamRecovered | src/protocol.rs:109-284 | Any stream of encoded frames is recovered |
| Frame.Recovers | src/protocol.rs:196-284 | After any bytes at all, 261 equal filler bytes that are not sync bytes make the parser return the next encoded frame |
| Frame.TooFew | src/protocol.rs:196-284 | 259 do not: there is a parser that is then still inside a frame |
| Frame.Corruption | src/protocol.rs:109-284 | For every frame and every change confined to two adjacent bytes of command, sequence, data and CRC: no frame is returned, except after the one change of the last covered byte by 0x89 and of the first CRC byte by 0xA1, when the altered frame is |
| Frame.CorruptionDropped | src/protocol.rs:196-284 | So a change confined to two adjacent bytes of command, sequence and data yields no frame |
| Frame.CorruptionAccepted | src/protocol.rs:126-134 | and in every frame that one change, across the last covered byte (of data, or the sequence number when there is none) and the first CRC byte, goes unnoticed and returns a different frame |
| Kiss.Encode | src/rnode.rs:247-265 | FEND, escaped command and data, FEND, with nothing dropped from the 1028-byte buffer |
| Kiss.Delimited | src/rnode.rs:247-293 | No FEND inside an encoded frame, and at most 1028 bytes |
| Kiss.KissParser.Feed | src/rnode.rs:338-394 | One byte: the next state and the frame returned, if any |
| Kiss.RunFrame | src/rnode.rs:247-394 | What one encoded frame yields before any other input, and that the parser is then as new |
| Kiss.StreamReceived | src/rnode.rs:247-394 | What any stream of encoded frames yields, special commands included |
| Kiss.StreamRecovered | src/rnode.rs:247-394 | A stream is recovered exactly when no command in it is FEND or FESC |
| Kiss.NotBefore | src/rnode.rs:338-394 | Each frame is returned at its closing FEND, not before |
| Kiss.Recovers | src/rnode.rs:338-394 | After any bytes at all and two FENDs the next encoded frame is received and the parser is new |
| Kiss.OneEndTooFew | src/rnode.rs:338-394 | One FEND is not enough: after FESC it is data |
| Gf256.MulCommutes | src/crypto/aes.rs:57-100 | Multiplication in the field is commutative |
| Gf256.MulAssociates | src/crypto/aes.rs:57-100 | and associative |
| Gf256.MulLinear | src/crypto/aes.rs:57-100 | and distributes over XOR |
| Gf256.Square8IsIdentity | src/crypto/aes.rs:51-54 | Every element is its own 256th power |
| Gf256.InverseIs | src/crypto/aes.rs:2-23 | The chain of squarings and products computes the inverse of everything that has one |
| Gf256.MulCtIsMul | src/crypto/aes.rs:57-100 | The branch-free multiplication computes the field product |
| Gf256.GfMul | src/crypto/aes.rs:753-767 | The looping multiplication computes the field product |
| AesSbox.EntryIs | src/crypto/aes.rs:153-190 | Every entry of either table is, through the affine map, the inverse of the byte it belongs to |
| AesSbox.SboxTheorem | src/crypto/aes.rs:2-190 | The tables are inverse permutations, and the computed S-boxes equal them on all bytes |
| Aes.MixInverse | src/crypto/aes.rs:468-499 | The inverse column matrix undoes the column matrix, for all states |
| Aes.SubInverse | src/crypto/aes.rs:398-411 | Inverse substitution undoes substitution |
| Aes.ShiftInverse | src/crypto/aes.rs:414-465 | Inverse row shifts undo row shifts |
| Aes.DecryptEncrypt | src/crypto/aes.rs:276-319 | Decryption undoes encryption for every block, all round keys and every number of rounds (sections 5.1 to 5.3 of FIPS 197) |
| AesCipher.MixColumnsInPlace | src/crypto/aes.rs:468-482 | Both column loops compute the matrix product in place |
| AesCipher.InvMixColumnsInPlace | src/crypto/aes.rs:962-975 | Both inverse column loops compute the inverse matrix product in place |
| AesCipher.EncryptRounds | src/crypto/aes.rs:276-296 | The rounds in place, with tables or without, compute the same encryption |
| AesCipher.DecryptRounds | src/crypto/aes.rs:845-862 | The inverse rounds in place, with tables or without, compute the same decryption |
| AesCipher.ExpandKey | src/crypto/aes.rs:793-822 | Both classes expand a key to the same 176 bytes |
| AesCipher.Aes128.EncryptBlock | src/crypto/aes.rs:825-842 | Aes128 and Aes128Ct encrypt every block under every key alike |
| AesCipher.Aes128.DecryptBlock | src/crypto/aes.rs:299-319 | and decrypt alike |
| AesCipher.Deciphers | src/crypto/aes.rs:230-319 | decrypt_block undoes encrypt_block for every key and block |
| AesCipher.Aes128.EncryptCbc | src/crypto/aes.rs:347-367 | Chaining in place |
| AesCipher.Aes128.DecryptCbc | src/crypto/aes.rs:370-394 | Unchaining in place |
| AesCipher.CbcDeciphers | src/crypto/aes.rs:347-394 | decrypt_cbc undoes encrypt_cbc for any key, initial vector and number of blocks (section 6.2 of NIST SP 800-38A) |
| AesCipher.Aes128.EncryptCtr | src/crypto/aes.rs:322-339 | Each chunk meets the encryption of the counter, which then goes up by one |
| AesModes.IncrementIs | src/crypto/aes.rs:510-517 | The counter as a big-endian number goes up by one, around at the top |
| AesModes.CtrTwice | src/crypto/aes.rs:322-344 | Counter mode undoes itself on data of any length |

## Left out

- Scalar reduction modulo the group order (`sc_reduce`, `sc_reduce_limbs`, `sc_muladd`) and therefore signing and verification.
- Conformance of `x25519` to section 5 of RFC 7748 beyond `X25519.CoordinateCorrect`: the ladder is proved to refine the plain ladder of the code's own formulas, which combine `aa` with 121666.
- That 2^255 - 19 is prime, so that `Invert` is an inverse and every square has the root `Pow22523` is used to find; point encoding; completeness of point decoding.
- Ladder.ScalarMul: is stated for every commutative group the law represents, and unconditionally on the points of `Torsion`; that all of the curve's points form one (associativity) is not proved.
- Poly1305 tags: the final reduction, whose constant-time selection never picks the top limb, and the addition of s.
- The SHA-512 compression function: its streaming and padding are the generic class's, its round constants are not written out.
- HashStream.Hasher.Update: does not model wrap-around of the 64-bit byte count, so it speaks of messages under 2^61 bytes.
- Session establishment, serialisation, the session manager, crossing ratchets in both directions and replays of old numbers; wrap-around of 64-bit message numbers.
- SessionRun.EveryPlaintext: assumes that fresh public keys differ in their first eight bytes, that no epoch is passed over and that none is returned to; `SessionStore.Late` says what the first message to return to one does.
- Layer-count guessing on reception, route building and blinded hints.
- The other messages (user, node info, telemetry, mesh packet), fixed-width readers and the slice-based copies of the varint readers, which would only add easy members.
- Mesh.FloodEnds: takes the timing, loss and order of deliveries as arbitrary but not retransmissions by the acknowledgement tracker, which is separate.
- Ota.OtaManager.WriteFirmware: takes the length of the data as a number that fits 32 bits, as a slice's does on the device.
- The partition calls, confirm, rollback and reboot of the updater; progress reporting beyond its field.
- The 64-bit packet id, which is never saved, and concurrent interleavings of the atomics.
- AesCipher.Aes128: stands for both Aes128 and Aes128Ct, which differ only in their S-box and multiplication; the key schedule of AES-256 is not modelled, its rounds are those of `Aes.Encrypt` with fourteen rounds.
- Constant-time behaviour, zeroing of memory and the quality of random numbers.
- Hardware and input/output: radio, Bluetooth, Wi-Fi, display, power, serial ports, storage.
- AT commands, floating-point airtime formulas, contact and identity serializers, base64.
