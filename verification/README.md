# Verified model of the mini-program protocol core

This project models, in Dafny, the protocol core of the `yyb_go` service: the wire codecs, the MMTLS
client with its key schedule and handshake, the layered transfer packets, the 0-RTT short link, the
session pool with its cache, locks and login tokens, and the retry logic above it. It proves the
properties those parts are there for.

`dafny verify dfyconfig.toml` checks everything. Each module is one file of the same name.

| module | models |
|---|---|
| `Bytes` | byte strings, big-endian numbers, Go's 64-bit integers |
| `Varint`, `Protobuf`, `Lz4` | `protocol/bytes.go` |
| `Wpkg`, `Transfer` | `protocol/ilink.go`: the wpkg header, transfer packets, session decryption |
| `Records`, `Messages` | `protocol/mmtls_protocol.go`, and the stream reading of `mmtls_client.go` |
| `HelloReader` | how a server reads the two ClientHello messages of `protocol/mmtls_protocol.go`, written from their layout |
| `Crypto` | `protocol/mmtls_crypto.go` |
| `Handshake`, `Agreement`, `Counters`, `Client` | `protocol/mmtls_client.go`: its steps as functions on a session value, what they achieve, and the client object whose methods are proved equal to them |
| `ZeroRtt` | `protocol/shortlink.go` |
| `Targets` | `protocol/newdns.go`: long-link target selection |
| `Hex`, `Blob` | how `protocol/pool.go` stores a session as JSON |
| `LockName`, `Pool` | `protocol/pool.go` and the session table of `store/store.go` as a transition system |
| `PoolLocks`, `PoolCache`, `PoolTheorems` | its invariants and what follows from them, over all runs |
| `PoolObject` | the same code on shared fields updated in place; the small methods are steps, and a whole call, interleaved with others, is a run |
| `Transport` | the dialling decision of `protocol/transport.go` |
| `Retry` | `Pool.run`, `invokeWXApp` and `refreshLiveness` |

## How to read the statements

Loops of the source are methods with loops, proved equal to a recursive function (`Decode`, `ParseFrom`,
`Decompress`, `Next`, `Flight`, ...). The lemmas then say what those functions mean. So the method
contract and the lemma together are the statement about the code.

SHA-256, HMAC, AES-GCM and P-256 are functions in a value of type `Crypto.Primitives`. `Lawful` says what
is relied on: output lengths, opening undoes sealing, Diffie-Hellman commutes. `Authentic`, that nothing
else opens, is a hypothesis only of the soundness lemmas that name it. Random bytes, the clock, the bytes
a connection delivers and the success of each write are arguments. Where Go would panic on a slice, the
result is an explicit `Panic`, `SlicePanic` or `Crash`.

The pool is a transition system whose runs are arbitrary lists of steps of any number of callers and of
the environment: time passing, rows invalidated or purged, accounts added and deleted. A database
failure, a failed login and a cancelled context are choices of the run. One database statement is one
step, since the store opens a single connection. The clock starts at or after the Unix epoch and does not
go back. A step that reads the clock and then uses it in one statement is atomic.

## What turned out false as one might state it

Each is proved with its exact condition, and lost cases are shown by an example.

* `pbLen` writes its tag in one byte. Its field reads back exactly for numbers 0 to 15 (`PbLenDomain`,
  `FieldSixteenIsLost`).
* A wpkg header with a key zero does not read back: the zero ends the section (`DecodeUndoesHead`,
  `ZeroKeyIsLost`).
* `protobufToMap` does not agree with `pbParse` on every input: it goes into byte strings that are not
  UTF-8 and panics on a wrapping length there. It panics exactly on such input
  (`ToMapAgreesWithParse`, `NestedWrapPanics`).
* An envelope over 65519 bytes, or a ClientHello whose ticket is over 65473 bytes, is silently missing
  from the 0-RTT request, because the error of `buildRecord` is dropped (`RequestReadsBack`,
  `TicketMustFit`, `LongTicketIsLost`).
* A response whose LZ4 block is empty does not open: 28 bytes are taken for too short
  (`SessionDecryptOpens`).
* A stored session comes back unchanged only if float64 holds its numbers; the first integer it does not
  hold is 2^53 + 1 (`BlobRoundTrip`, `FirstInexact`). Its keys, proxy and PSK expiry survive anyway
  (`StoredDecodes`).
* After a failed operation `run` goes direct behind a request to delete the proxy's row, not behind its
  deletion: the error of the delete is ignored. The row is gone exactly if the delete is granted
  (`DirectOnlyAfterDrop`, `DroppedWhenGranted`, `DropMayFail`).
* Before an operation is retried under the same key, the delete of that key's row is issued exactly if
  the key is that of the request's own proxy. The direct fallback's row is left alone
  (`DroppedBeforeReuse`, `DirectRowStays`).
* A session for a proxy is never used for a direct short-link dial (`ProxyIsNeverBypassed`), but the
  login that made it may have dialled directly: in some run exactly if the fallback is on and the proxy
  well formed (`SessionOrigin`, `LoginMayBypass`).

## Model

| member | source | states |
|---|---|---|
| Varint.WriteVarint | yyb_go/internal/protocol/bytes.go:10-23 | the loop writes the base-128 groups of `Encode` |
| Varint.EncodeIsBase128 | yyb_go/internal/protocol/bytes.go:10-23 | every byte but the last has its top bit set, and the low seven bits of byte k are digit k of the number to base 128 |
| Varint.EncodeAtMostTen | yyb_go/internal/protocol/bytes.go:10-23 | a uint64 takes 1 to 10 bytes |
| Varint.ReadVarint | yyb_go/internal/protocol/bytes.go:25-41 | value modulo 2^64, next offset, truncation and overflow errors, at any offset of any input |
| Varint.RoundTrip | yyb_go/internal/protocol/bytes.go:10-41 | reading undoes writing for every uint64, at any offset, before any suffix |
| Protobuf.PbParse | yyb_go/internal/protocol/bytes.go:56-91 | the parsing loop, with its silent stops and the slice panic of a wrapping length, is `Parse`, stop offset included |
| Protobuf.ParseIsLastWins | yyb_go/internal/protocol/bytes.go:43-91 | parsing any concatenation of built fields 0..15 gives exactly their numbers, each with its last value |
| Protobuf.PbLenDomain | yyb_go/internal/protocol/bytes.go:43-48 | a built field reads back as written if and only if its number is 0..15 |
| Protobuf.FieldSixteenIsLost | yyb_go/internal/protocol/bytes.go:43-48 | field 16 does not read back |
| Protobuf.ProtobufToMap | yyb_go/internal/protocol/bytes.go:93-143 | the recursive decoder terminates on every input, each nested call on a strictly shorter slice, and is `ToMap` |
| Protobuf.ToMapAgreesWithParse | yyb_go/internal/protocol/bytes.go:56-143 | protobufToMap panics if and only if a wrapping length is met at some depth it reads; otherwise both decoders find the same field numbers and stop at the same offset, and each value is shown as its number, its printable short text, its hex, or what its bytes decode to |
| Protobuf.IsPrintableShort | yyb_go/internal/protocol/bytes.go:145-161 | the loop accepts exactly what starts with a brace or is under 200 bytes, all of them printable ASCII, tab or line end |
| Protobuf.WrappingLengthPanics | yyb_go/internal/protocol/bytes.go:74-86 | the eleven bytes on which pbParse panics |
| Protobuf.NestedWrapPanics | yyb_go/internal/protocol/bytes.go:56-143 | inside a message these bytes are read by pbParse and make protobufToMap panic |
| Lz4.CopyIsPeriodic | yyb_go/internal/protocol/bytes.go:226-229 | a match, also one overlapping its own output, repeats the last offset bytes periodically |
| Lz4.CopyMatch | yyb_go/internal/protocol/bytes.go:226-229 | the byte-by-byte copy loop does that |
| Lz4.ExtIsBytes | yyb_go/internal/protocol/bytes.go:179-231 | a length of 15 or more goes on in bytes of 255 and a last one below, which sum to the rest |
| Lz4.ShortBlock | yyb_go/internal/protocol/bytes.go:179-231 | the bytes of a block with one short match, written out |
| Lz4.Lz4Decompress | yyb_go/internal/protocol/bytes.go:179-231 | the decoding loop with all its bounds checks is `Decompress` |
| Lz4.DecompressEncoding | yyb_go/internal/protocol/bytes.go:179-231 | on the encoding of any valid block (LZ4 Block Format Description, section "Compressed block format") the result is the block's meaning |
| Lz4.AcceptedIsEncoding | yyb_go/internal/protocol/bytes.go:179-231 | conversely, whatever is accepted is the encoding of some valid block and decodes to its meaning |
| Lz4.DecompressBound | yyb_go/internal/protocol/bytes.go:179-231 | accepted input of n bytes gives at most 255 n bytes |
| Lz4.Lz4AllLiteral | yyb_go/internal/protocol/bytes.go:163-177 | the length loop writes one literal-only run |
| Lz4.AllLiteralRoundTrip | yyb_go/internal/protocol/bytes.go:163-231 | decompressing it gives the data back, also when empty |
| Wpkg.SortedKeys | yyb_go/internal/protocol/ilink.go:118-131 | the keys of a map in strictly increasing order, whatever order they are collected in |
| Wpkg.WpkgHead | yyb_go/internal/protocol/ilink.go:118-145 | both sections in key order, then the offset of the trailing varint |
| Wpkg.HeadIsUnique | yyb_go/internal/protocol/ilink.go:118-145 | map iteration order does not reach the output |
| Wpkg.DecodeWpkgHead | yyb_go/internal/protocol/ilink.go:214-265 | the two parsing loops, errors and panics included |
| Wpkg.HeadRoundTrip | yyb_go/internal/protocol/ilink.go:118-265 | decoding gives back both maps and the header length, for every order of the keys and every suffix |
| Wpkg.DecodeUndoesHead | yyb_go/internal/protocol/ilink.go:118-265 | decoding undoes encoding if and only if no key is zero |
| Wpkg.ZeroKeyIsLost | yyb_go/internal/protocol/ilink.go:118-265 | a header whose only key is zero does not read back |
| Records.BuildRecord | yyb_go/internal/protocol/mmtls_protocol.go:40-50 | the header filled in place, and the error above 65535 bytes |
| Records.ParseRecords | yyb_go/internal/protocol/mmtls_protocol.go:52-70 | records and consumed bytes of the parsing loop |
| Records.ParseOfStream | yyb_go/internal/protocol/mmtls_protocol.go:40-70 | parsing undoes building for any list of records before any tail |
| Records.ParseInTwo | yyb_go/internal/protocol/mmtls_protocol.go:52-70 | parsing a prefix early and the rest later gives the same records |
| Records.NextTakesFirst | yyb_go/internal/protocol/mmtls_client.go:73-97 | one call takes exactly the first record still to come and fails only when there is none |
| Records.ChunkingIndependence | yyb_go/internal/protocol/mmtls_client.go:73-97 | however the stream is cut into reads, successive calls yield the records of one parse of the whole, in order, then errors |
| Records.ChunkedRecordsArrive | yyb_go/internal/protocol/mmtls_client.go:73-97 | built records come back as they were through any chunking |
| Crypto.HkdfExpand | yyb_go/internal/protocol/mmtls_crypto.go:32-44 | the loop with its one-byte counter is `Expand` |
| Crypto.ExpandIsRfc5869 | yyb_go/internal/protocol/mmtls_crypto.go:32-44 | up to 8160 bytes every output byte is that of T(1), T(2), ... in section 2.3 of RFC 5869 |
| Crypto.ExpandPrefix | yyb_go/internal/protocol/mmtls_crypto.go:32-44 | shorter outputs are prefixes of longer ones |
| Crypto.SplitBiKeys | yyb_go/internal/protocol/mmtls_crypto.go:157-164 | 56 bytes split into two keys and two IVs with nothing lost or shared |
| Crypto.TrafficKeySchedule | yyb_go/internal/protocol/mmtls_crypto.go:143-164 | secrets, labels and lengths of the handshake and application keys, as RFC 5869 blocks |
| Crypto.FinishedSchedule | yyb_go/internal/protocol/mmtls_crypto.go:166-175 | key, labels and content of the verify data of both sides |
| Crypto.PskSchedule | yyb_go/internal/protocol/mmtls_crypto.go:177-188 | labels and lengths of the PSK for each ticket type and of the keys made from it |
| Crypto.NonceOf | yyb_go/internal/protocol/mmtls_crypto.go:80-88 | the loop xors the sequence number into the IV's last eight bytes |
| Crypto.NonceBits | yyb_go/internal/protocol/mmtls_crypto.go:80-88 | the first four bytes are those of the IV, each later one the IV byte xored with the byte of the number at its place |
| Crypto.NonceInjective | yyb_go/internal/protocol/mmtls_crypto.go:80-88 | for a fixed IV, distinct 64-bit sequence numbers give distinct nonces |
| Crypto.BuildRecordAAD | yyb_go/internal/protocol/mmtls_crypto.go:114-122 | sequence number, content type, version and length, written in place |
| Crypto.LayoutParts | yyb_go/internal/protocol/mmtls_crypto.go:190-211 | a sealed layout is ciphertext, IV and tag, in this order, of AES-GCM over the plaintext |
| Crypto.RecordOpens | yyb_go/internal/protocol/mmtls_crypto.go:124-132 | a sealed record opens under the same key, IV, number and type |
| Crypto.LayoutOpens | yyb_go/internal/protocol/mmtls_crypto.go:190-230 | opening the ciphertext-IV-tag layout undoes sealing it |
| Crypto.LayoutIsSealed | yyb_go/internal/protocol/mmtls_crypto.go:213-230 | under authenticity, a layout that opens is the sealing of what it opens to |
| Messages.BuildHandshake | yyb_go/internal/protocol/mmtls_protocol.go:76-83 | length, type and body, written in place |
| Messages.SplitUndoesBuild | yyb_go/internal/protocol/mmtls_protocol.go:76-95 | splitting gives back type and body before any trailing bytes |
| Messages.ServerHelloReadsBack | yyb_go/internal/protocol/mmtls_protocol.go:171-214 | random, cipher, group and public key of a hello with a key share |
| Messages.ExtractKeyShareLoop | yyb_go/internal/protocol/mmtls_protocol.go:216-227 | the scan for uncompressed points |
| Messages.FinishedReadsBack | yyb_go/internal/protocol/mmtls_protocol.go:229-248 | a Finished message gives back its verify data |
| Messages.ParseNewSessionTicketLoop | yyb_go/internal/protocol/mmtls_protocol.go:256-278 | the ticket loop, with its early stops |
| Messages.NewSessionTicketReadsBack | yyb_go/internal/protocol/mmtls_protocol.go:256-278 | every list of up to 255 tickets reads back: first byte as type, the next four as lifetime, and the whole entry |
| Messages.BuildShortlink | yyb_go/internal/protocol/mmtls_protocol.go:280-293 | the 16-byte header filled in place |
| Messages.ShortlinkReadsBack | yyb_go/internal/protocol/mmtls_protocol.go:280-320 | parsing undoes building before any suffix |
| Handshake.RecvFlightKeepsConsistent | yyb_go/internal/protocol/mmtls_client.go:190-254 | once the final hash is set, so are the secret and both key sets |
| Agreement.FlightAgrees | yyb_go/internal/protocol/mmtls_client.go:220-253 | a sealed flight of any length ending in Finished is accepted, with the stated transcript, hashes, keys and tickets |
| HelloReader.HelloReadsBack | yyb_go/internal/protocol/mmtls_protocol.go:97-136 | a server reading a ClientHello by its layout finds cipher, random, time and extension |
| HelloReader.OfferReadsBack | yyb_go/internal/protocol/mmtls_protocol.go:97-136 | and in a key offer its group and key |
| Agreement.HelloCarries | yyb_go/internal/protocol/mmtls_protocol.go:97-136 | the ClientHello carries the drawn random and time, the public key of g1 for group 1 and of g2 for group 2 |
| Agreement.HandshakeAgreement | yyb_go/internal/protocol/mmtls_client.go:181-276 | against a server that takes the client's key out of the ClientHello sent and mirrors the rest, the handshake succeeds over any chunking; both ends hold the same secret, hashes and keys, and the server can open the client's Finished |
| Agreement.AcceptanceIsVerified | yyb_go/internal/protocol/mmtls_client.go:190-254 | whatever the server sent, acceptance means the records taken all opened in turn under the derived server keys, and the last is a Finished with the verify data for the secret and everything before it; under authenticity all were sealed with those keys |
| Agreement.BuiltHelloHasKey | yyb_go/internal/protocol/mmtls_client.go:190-219 | a hello built with a P-256 share offers that key to the client |
| Counters.RunOnWire | yyb_go/internal/protocol/mmtls_client.go:107-133 | in a run of successful sends the counter moves by one each and record k is numbered txSeq + k |
| Counters.NoncesNeverRepeat | yyb_go/internal/protocol/mmtls_client.go:107-133 | no two sealed records of a run share key and nonce, and these are what their bytes on the wire were sealed under |
| Counters.FailuresDoNotCount | yyb_go/internal/protocol/mmtls_client.go:107-155 | a failed send or receive leaves its counter as it was |
| Counters.MirrorReceivesRun | yyb_go/internal/protocol/mmtls_client.go:107-155 | a mirroring receiver opens every record of the run, through any chunking |
| Client.MmtlsClient.constructor | yyb_go/internal/protocol/mmtls_client.go:54-56 | a client starts with empty buffers and zero counters |
| Client.MmtlsClient.NextRecord | yyb_go/internal/protocol/mmtls_client.go:73-97 | the read loop over `rxbuf` and `recq` is `Next` |
| Client.MmtlsClient.SendPlain | yyb_go/internal/protocol/mmtls_client.go:107-117 | the counter moves only after a successful write |
| Client.MmtlsClient.SendEncrypted | yyb_go/internal/protocol/mmtls_client.go:119-133 | seal, frame, write, count |
| Client.MmtlsClient.ReceivePlain | yyb_go/internal/protocol/mmtls_client.go:135-142 | one record, counted |
| Client.MmtlsClient.ReceiveDecrypt | yyb_go/internal/protocol/mmtls_client.go:144-155 | one record, counted only if it opens |
| Client.MmtlsClient.ReceiveSealedFlight | yyb_go/internal/protocol/mmtls_client.go:220-253 | the loop over the sealed flight is `Flight` |
| Client.MmtlsClient.ReceiveServerFlight | yyb_go/internal/protocol/mmtls_client.go:190-254 | from ServerHello to the verified Finished |
| Client.MmtlsClient.SendFinished | yyb_go/internal/protocol/mmtls_client.go:256-266 | the client's Finished under the handshake keys |
| Client.MmtlsClient.Handshake | yyb_go/internal/protocol/mmtls_client.go:268-276 | the three phases in order, stopping at the first failure; the ClientHello sent is the one whose reading HelloCarries gives |
| Client.MmtlsClient.ExtractPSKs | yyb_go/internal/protocol/mmtls_client.go:278-295 | one PSK for each ticket, in order, or the error before a handshake |
| Client.PickAccessPSK | yyb_go/internal/protocol/mmtls_client.go:297-305 | the first access PSK that has not expired, if there is any |
| Transfer.SessionWpkgHead | yyb_go/internal/protocol/ilink.go:403-413 | a header that reads back as exactly the listed fields with their values: uin in 2 and 22, device id or its default in 24, f9 in 27 |
| Transfer.HeadFieldsCarry | yyb_go/internal/protocol/ilink.go:403-413 | which session field is which header field, with every literal value and no other key |
| Transfer.SessionHeadReads | yyb_go/internal/protocol/ilink.go:403-413 | decoding such a header before any rest finds them |
| Transfer.BuildTransferPacket | yyb_go/internal/protocol/ilink.go:415-438 | compress, seal, prepend the header, wrap; or the key error; what a receiver unwraps has the fixed URL, host, command and version, this session's header fields and the plaintext |
| Transfer.TransferRoundTrip | yyb_go/internal/protocol/ilink.go:415-438 | unwrapping all layers of a built packet gives back URL, host, command, every header field and every plaintext, empty included |
| Transfer.SessionDecryptLoop | yyb_go/internal/protocol/ilink.go:440-469 | the search over candidate offsets, skipping those already seen, returns the first opening |
| Transfer.SessionDecryptChooses | yyb_go/internal/protocol/ilink.go:440-469 | the offset a parsed header ends at comes first, then the least offset below 220 that opens; failure if and only if none opens |
| Transfer.SessionDecryptOpens | yyb_go/internal/protocol/ilink.go:440-469 | a parsed header followed by any sealed LZ4 block opens at the first offset tried, unless the block is empty |
| Transfer.HeadThenSealed | yyb_go/internal/protocol/ilink.go:118-145 | what wpkgHead writes, followed by any sealed block, is such a body |
| Transfer.SessionDecryptIsSound | yyb_go/internal/protocol/ilink.go:440-469 | under authenticity, what is returned was sealed under recvKey inside the body |
| Transfer.ExtractCodeFindsCode | yyb_go/internal/protocol/ilink.go:471-480 | the code is found in a response whose last field 2 holds a message whose last field 3 is it |
| Transfer.NoCodeIsEmpty | yyb_go/internal/protocol/ilink.go:471-480 | a response without field 2, or whose field 2 has no field 3, has the empty code |
| ZeroRtt.Build0RTTRequest | yyb_go/internal/protocol/shortlink.go:20-67 | the request body grown record by record, oversized records dropped, or the hex error |
| ZeroRtt.PskHelloCarries | yyb_go/internal/protocol/mmtls_protocol.go:138-163 | the PSK ClientHello carries cipher 0x00a8, the random, the time and the whole ticket |
| ZeroRtt.RequestReadsBack | yyb_go/internal/protocol/shortlink.go:20-67 | the server parses exactly the records that fit, all four if and only if ClientHello and envelope do; each has its content type and opens at its number under the early data keys |
| ZeroRtt.TicketMustFit | yyb_go/internal/protocol/shortlink.go:20-48 | the ClientHello arrives if and only if the ticket has at most 65473 bytes |
| ZeroRtt.LongTicketIsLost | yyb_go/internal/protocol/shortlink.go:20-48 | a longer ticket that a login can leave, and whose ClientHello is lost |
| ZeroRtt.LoginPskIsUsed | yyb_go/internal/protocol/shortlink.go:20-29 | the PSK of a login carries type, lifetime and expiry of its ticket, and key and ticket survive their hex form into the request |
| ZeroRtt.Parse0RTTResponse | yyb_go/internal/protocol/shortlink.go:122-165 | the search over three transcripts and the numbers 2, 1, 3, in order, is `ReadReply` |
| ZeroRtt.NothingToRead | yyb_go/internal/protocol/shortlink.go:122-140 | without a non-empty handshake record or application data record the reply is an error |
| ZeroRtt.BareIsNoShortlink | yyb_go/internal/protocol/mmtls_protocol.go:304-320 | a bare body whose version byte is not zero, as wpkg writes it, is rejected as a shortlink packet |
| ZeroRtt.SearchIsComplete | yyb_go/internal/protocol/shortlink.go:122-165 | a header and sealed LZ4 block, in a shortlink packet or bare, sealed at number 1, 2 or 3 under the keys of any of the three transcripts, is found and its plaintext and code returned |
| ZeroRtt.ReplyIsSound | yyb_go/internal/protocol/shortlink.go:122-165 | under authenticity, a returned reply was sealed at number 1, 2 or 3 under the keys of one of the three transcripts and, inside, under recvKey |
| Targets.SortStable | yyb_go/internal/protocol/newdns.go:250 | the insertion sort is the stable sort by IP |
| Targets.StableSortSorts | yyb_go/internal/protocol/newdns.go:250 | it is sorted, has the same entries, and keeps the order within one IP |
| Targets.LessIsLexicographic | yyb_go/internal/protocol/newdns.go:250 | the order of the sort is the lexicographic one |
| Targets.PickPreferred | yyb_go/internal/protocol/newdns.go:236-246 | one entry for each IP with a preferred port, on the best one it offers |
| Targets.OrderLonglinkTargets | yyb_go/internal/protocol/newdns.go:235-255 | with one of the ports 8080, 80, 443 somewhere: strictly increasing IPs, each on the first of these it offers, missing only if crowded out by smaller IPs; otherwise the truncated stable sort |
| Hex.HexRoundTrip | yyb_go/internal/protocol/pool.go:395-413 | hex coding of any byte string decodes to it |
| Blob.SessionFromBlob | yyb_go/internal/protocol/pool.go:356-393 | a decoded session has keys, a UIN and a target |
| Blob.BlobFieldsAt | yyb_go/internal/protocol/pool.go:339-354 | which part of a session is under which JSON name |
| Blob.SessionFieldsAt | yyb_go/internal/protocol/pool.go:339-354 | the same for its keys and ids |
| Blob.PskFieldsAt | yyb_go/internal/protocol/pool.go:339-354 | the same for its PSK |
| Blob.ExactSurvives | yyb_go/internal/protocol/pool.go:446-460 | a number survives JSON if and only if float64 holds it |
| Blob.FirstInexact | yyb_go/internal/protocol/pool.go:446-460 | 2^53 + 1 does not |
| Blob.BlobComesBack | yyb_go/internal/protocol/pool.go:339-460 | what any stored session comes back as |
| Blob.BlobRoundTrip | yyb_go/internal/protocol/pool.go:339-460 | it comes back unchanged if and only if its keys, UIN and targets are there and its numbers exact |
| Blob.StoredDecodes | yyb_go/internal/protocol/pool.go:339-393 | keys, proxy and PSK expiry survive whatever happens to the other numbers |
| LockName.NamesAreDistinct | yyb_go/internal/protocol/pool.go:169 | distinct accounts or proxies have distinct mutex names |
| PoolLocks.MutualExclusion | yyb_go/internal/protocol/pool.go:169-171 | at most one caller for an account and proxy is between Lock and Unlock, in every run |
| PoolLocks.WaitsForSameKey | yyb_go/internal/protocol/pool.go:201-210 | a caller waits only for a mutex held for its own account and proxy |
| PoolLocks.TokensAreLogins | yyb_go/internal/protocol/pool.go:181-184 | tokens taken are the logins in flight, within capacity, and release never finds the channel empty |
| PoolLocks.NothingIsKept | yyb_go/internal/protocol/pool.go:163-199 | every exit path gives back mutex and token |
| PoolLocks.NeverStuck | yyb_go/internal/protocol/pool.go:163-199 | while a caller is unfinished some caller can move, in every run |
| PoolLocks.Drains | yyb_go/internal/protocol/pool.go:163-199 | the callers alone, none giving up, can bring every state to completion |
| PoolLocks.WorkIsBounded | yyb_go/internal/protocol/pool.go:163-199 | under every schedule each caller takes at most eleven steps |
| PoolCache.CacheAlways | yyb_go/internal/protocol/pool.go:163-199 | rows, log, settled stores and callers keep their invariant through every step of every run |
| PoolTheorems.SingleFlight | yyb_go/internal/protocol/pool.go:163-199 | two stores for one key are separated by an invalidation, a deletion of the account, or the expiry of the first |
| PoolTheorems.TableIsTheLog | yyb_go/internal/store/store.go:434-471 | a row is there and unexpired if and only if it is that of a store in the log that is unexpired and that nothing cleared |
| PoolTheorems.RowsAreSound | yyb_go/internal/protocol/pool.go:185-198 | every row decodes, to a complete session for the row's proxy, and expires no later than its PSK; its account exists |
| Pool.SessionExpiresAt | yyb_go/internal/protocol/pool.go:329-337 | the earlier of the PSK's expiry, where it has one, and the end of the TTL |
| PoolTheorems.RowsExpireInTime | yyb_go/internal/protocol/pool.go:163-199 | in every run no row outlives the TTL counted from now |
| PoolTheorems.PurgeLeavesTheLive | yyb_go/internal/store/store.go:465-471 | in every run a purge leaves exactly the unexpired rows |
| PoolTheorems.ReturnedSession | yyb_go/internal/protocol/pool.go:163-199 | state returns a session for the key asked; a cached one was stored for that key, not cleared since, and its PSK was alive when read |
| PoolTheorems.LiveRowIsReturned | yyb_go/internal/protocol/pool.go:163-176 | in every run, while a store for the key is unexpired and not cleared, both the first and the second read return what it stored |
| PoolTheorems.MissGoesOn | yyb_go/internal/protocol/pool.go:163-181 | in every run, without an unexpired row the first read goes on to the mutex and the second to the login |
| PoolTheorems.FailuresEndTheCall | yyb_go/internal/protocol/pool.go:163-199 | in every run a database failure, a missing account, a cancelled wait, a failed login or a refused store ends the call with an error |
| PoolTheorems.MissLogsIn | yyb_go/internal/protocol/pool.go:177-198 | a call that missed under its mutex and is not disturbed logs in, stores the session until its due expiry, returns it and gives back token and mutex |
| PoolTheorems.ProxyIsNeverBypassed | yyb_go/internal/protocol/pool.go:292-304 | a short-link send for a proxy dials only through that proxy |
| PoolTheorems.SessionOrigin | yyb_go/internal/protocol/transport.go:39-55 | in every run the login behind a returned session connected through its proxy if that dial worked, and otherwise directly, only with the fallback on |
| PoolTheorems.LoginMayBypass | yyb_go/internal/protocol/pool.go:212-230 | some run returns a session for a proxy whose login had connected directly if and only if the fallback is on and the proxy well formed |
| PoolObject.SessionPool.constructor | yyb_go/internal/protocol/pool.go:58-85 | an empty pool |
| PoolObject.SessionPool.GetSession | yyb_go/internal/store/store.go:434-440 | an unexpired row that decodes is returned, one that does not is an error, an expired or missing one is no row |
| PoolObject.SessionPool.PutSession | yyb_go/internal/store/store.go:442-459 | the upsert on account and proxy, refused by the foreign key |
| PoolObject.SessionPool.InvalidateSession | yyb_go/internal/store/store.go:460-463 | exactly that row goes |
| PoolObject.SessionPool.PurgeExpiredSessions | yyb_go/internal/store/store.go:465-471 | exactly the expired rows go, and how many |
| PoolObject.SessionPool.RemoveAccount | yyb_go/internal/store/store.go:369-372 | the account goes with all its rows |
| PoolObject.SessionPool.LockFor | yyb_go/internal/protocol/pool.go:201-210 | the registered mutex, or a new one registered |
| PoolObject.SessionPool.AcquireToken | yyb_go/internal/protocol/pool.go:306-313 | a token taken, or none and an error |
| PoolObject.SessionPool.ReleaseToken | yyb_go/internal/protocol/pool.go:315-320 | one token fewer if there is one |
| PoolObject.SessionPool.AfterMiss | yyb_go/internal/protocol/pool.go:169-198 | lockFor, Lock, the locked part and the deferred Unlock, interleaved with anything others do |
| PoolObject.SessionPool.RunOthers | yyb_go/internal/protocol/pool.go:163-199 | any steps of the environment and of other callers, performed on the shared fields, are that run of the transition system and leave this caller alone |
| PoolObject.SessionPool.GetState | yyb_go/internal/protocol/pool.go:163-199 | a call interleaved with arbitrary steps of everyone else is a run of the transition system; it returns a live row found by the first or the second read, otherwise with its own result, or is found waiting for its mutex or a token |
| Retry.ResolvedOnce | yyb_go/internal/httpapi/app.go:1689-1694 | resolving the proxy in the handler and again in the pool gives the operations one key: the account's own proxy if it has one, else the configured one |
| Retry.Request.Run | yyb_go/internal/protocol/pool.go:143-161 | the acts of a run, in order, for every environment: first a session under the given proxy, or under the configured one if none is given; other acts under that key or, with the fallback on, the direct one |
| Retry.RunCounts | yyb_go/internal/protocol/pool.go:143-161 | at most two operations and one session under the request's key |
| Retry.RunShape | yyb_go/internal/protocol/pool.go:143-161 | the direct key is tried if and only if a set proxy failed and the fallback is on, in the stated order of acts |
| Retry.RunUsesProxy | yyb_go/internal/protocol/pool.go:143-161 | a run starts with a session under the given proxy, or under the configured one if none is given, and every other act is under that key or, with the fallback on, the direct one |
| Retry.RequestUsesProxy | yyb_go/internal/httpapi/app.go:1469-1486 | the same for both calls of a request |
| Retry.RunLaws | yyb_go/internal/protocol/pool.go:143-161 | every operation has a session just obtained for its key; run succeeds with the operation that did |
| Retry.DirectOnlyAfterDrop | yyb_go/internal/protocol/pool.go:143-161 | a direct operation after a failed one comes only behind the delete of the proxy's row, with the fallback on |
| Retry.DroppedWhenGranted | yyb_go/internal/protocol/pool.go:143-161 | in every world the proxy row is deleted between the failed and the direct operation if and only if the delete asked for right after the failure is granted |
| Retry.DropMayFail | yyb_go/internal/protocol/pool.go:151 | a world that refuses the delete, in which run goes direct and succeeds |
| Retry.Request.RefreshLiveness | yyb_go/internal/httpapi/app.go:1434-1450 | unknown, expired or alive, and the status written |
| Retry.RefreshShape | yyb_go/internal/httpapi/app.go:1434-1450 | unknown if and only if there were no credentials, alive if and only if the refresh worked; then the new credential is stored; and the status returned is the one written |
| Retry.Request.InvokeWXApp | yyb_go/internal/httpapi/app.go:1469-1486 | the acts of a request, in order, for every environment, both calls under the given proxy or, without one, the configured one |
| Retry.RequestCounts | yyb_go/internal/httpapi/app.go:1469-1486 | at most two calls and four operations |
| Retry.ExpiryIsRefresh | yyb_go/internal/httpapi/app.go:1434-1486 | expiry is reported if and only if the refresh left the account not alive |
| Retry.ErrorMeansSecondCall | yyb_go/internal/httpapi/app.go:1469-1486 | a plain error comes only from a second call, after a refresh that worked, with the reloaded login buffer if there is one |
| Retry.SuccessIsAnOp | yyb_go/internal/httpapi/app.go:1469-1486 | success is the success of an operation, the last thing done, and every successful operation is a success |
| Retry.DroppedBeforeReuse | yyb_go/internal/httpapi/app.go:1469-1486 | between a failed operation and its retry under the same key the delete of its row is issued if and only if it is the request's own proxy's |
| Retry.DirectRowStays | yyb_go/internal/httpapi/app.go:1469-1486 | a request whose direct operation fails twice with the direct row in place throughout |

## Left out

- The QR login state machine, `send0RTT`'s loop over targets, `sendApp`/`recvApp` and `serversFor`: they would only add easy members.
- The hybrid ECDH login body: a round trip would need the server's half, which is not in the repository; its LZ4, header and layout layers are modelled.
- DNS parsing and its cache, HTTP framing, SOCKS5 and CONNECT, timeouts and deadlines: environment, given as arguments.
- The other tables of the store, migrations and the SQL text; the session table is a keyed map with the foreign key on.
- The background renewal, avatars and nicknames in `httpapi`.
- Blob.BlobRoundTrip: CreatedAt is not stored and so not compared; strings are taken to be valid UTF-8, which JSON requires.
- Protobuf.ProtobufToMap: whether bytes are valid UTF-8 is a parameter, and the printable-text rule is kept as written on bytes.
- Agreement.HandshakeAgreement: the server is the one the client can talk to (a P-256 share, messages that fit a record); errors and alerts of other servers are covered only by AcceptanceIsVerified.
- ZeroRtt.SearchIsComplete: no other of the nine pairs of transcript and number opens the record to something else, which AES-GCM authenticity under one key does not exclude across keys; a bare body does not itself read as a shortlink packet, which BareIsNoShortlink excludes for every version byte but zero.
- Counters.NoncesNeverRepeat: runs short of 2^64 records, and each key with one IV, as the key schedule pairs them.
- PoolTheorems.ReturnedSession: a fresh session's PSK was alive when the login picked it, which may be before the moment it is returned.
- PoolObject.SessionPool.GetState: the others act between its steps as the caller of the method lays down, not concurrently. SetAccountUIN, whose error is ignored, changes nothing modelled and is not a step.
- PoolLocks.NeverStuck: a login is taken to end, in success or failure, as its timeout makes it.
- Retry.Request.InvokeWXApp: concurrent requests show up only as the answers of the environment; the avatar refresh is not an act.
