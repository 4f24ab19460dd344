# QMC decryptor core, modelled and verified in Dafny

This project models the byte-level de-obfuscation core of the QMC decryptor
(the `um_crypto/qmc` crate) and proves what that code promises.

It covers two groups of code.

**Ciphers and key derivation**

- **QMC v1 transform** (`V1Cipher`): an offset-addressed XOR against a
  128-byte table. Offsets past `0x7FFF` fold modulo `0x7FFF`.
- **Map key compression** (`V2MapKey`): reduces a non-empty key of any length
  to that 128-byte table. Entry `k` is taken from key index
  `(k*k + 71214) % n` and mixed with a shift-OR.
- **`QMC2Map`** (`V2Map`): applies the transform in place to a buffer that
  starts at a given file offset.
- **Key hash** (`V2Rc4Hash`): an early-stopping 32-bit multiplicative
  fingerprint.
- **RC4 variant** (`V2Rc4Schedule`, `V2Rc4`): the permutation has the key's
  length `n`, not 256. It has a key schedule, a stateful `generate` and an
  in-place `derive`.
- `Keystream`: generic facts about iterating a step function and XOR-ing its
  outputs into data.

**Footer recognizers**

These are pure parsers over the tail of a file. Each answers one of three
things: "no footer of mine" (`Ok(None)`), the footer's metadata, or an error.

- `Footer`: the shared result types.
- `FooterUtils`: the base64 alphabet test and the UTF-16LE-to-ASCII
  conversion.
- `AndroidSTag`: a CSV payload, its big-endian length and `"STag"`.
- `PcV1Legacy`: a NUL-padded base64 key token and its little-endian length.
- `PcV2MusicEx`: a little-endian version and the magic `"musicex\0"`.

**How the source's form is kept**

- Pure code is functions and lemmas: the transform, the hash recurrence and
  the parsers.
- Code that works step by step is methods with loop invariants, proved
  against those functions:
  - `KeyCompress` fills the table entry by entry;
  - `QMC2Map.Decrypt` rewrites the caller's buffer;
  - `Hash` runs the accumulator loop with its `continue` and `break`;
  - `InitState` swaps entries of a boxed array;
  - the class `RC4` holds `state`, `i` and `j` and updates them in
    `Generate` and `Derive`.

**The map key mixing is a shift-OR, not a rotation.** Each table entry is
`(b << s) | (b >> s)` on a `u8`, and the bits shifted out at the top are
lost. `ShiftOrIsNotRotation` shows that the first entry of the compression
test vector is `0x79`, where a rotation would give `0x72`. The golden vector
holds only for the shift-OR.

**Test vectors proved.** The source's test vectors are proved as lemmas:

- the 325-byte alphanumeric key compresses to the expected table;
- the 16 test bytes decrypt to zeros at offset 32760;
- `hash("hello world") == 4045008896`;
- the RC4 test key turns `"hello world"` into the expected eleven bytes and
  changes the state.

## Model

| member | source | states |
|---|---|---|
| V1Cipher.EffectiveOffset | um_crypto/qmc/src/v1/cipher.rs:20-23 | offsets up to `0x7FFF` are kept; larger ones become a value below `0x7FFF` that is congruent to them modulo `0x7FFF` |
| V1Cipher.TableIndex | um_crypto/qmc/src/v1/cipher.rs:25 | the table index is always below 128, so the lookup never goes out of bounds |
| V1Cipher.Transform | um_crypto/qmc/src/v1/cipher.rs:19-26 | the result XOR-ed with the selected table entry gives back the input byte |
| V1Cipher.TransformInvolution | um_crypto/qmc/src/v1/cipher.rs:19-26 | applying the transform twice at the same offset restores any byte, for every key |
| V1Cipher.TransformFolds | um_crypto/qmc/src/v1/cipher.rs:20-23 | past `0x7FFF`, the offset acts as `offset % 0x7FFF`, which is at most `0x7FFE` |
| V1Cipher.TransformPeriodic | um_crypto/qmc/src/v1/cipher.rs:20-23 | past the boundary, the transform repeats with period `0x7FFF` (not `0x8000`) |
| V1Cipher.BoundaryIndices | um_crypto/qmc/src/v1/cipher.rs:43-52 | offset `0x7FFF` uses entry 127 and `0x8000` uses entry 1, not the entry 0 a `% 0x8000` mask would pick; the boundary test reads entries 122..127 and then 1..5 |
| V2MapKey.ShiftOr | um_crypto/qmc/src/v2_map/key.rs:32 | a shift of 0 keeps the byte; the result holds every bit of both shifted values |
| V2MapKey.SampleIndex | um_crypto/qmc/src/v2_map/key.rs:29-30 | the scrambled index is below the key length, for every non-empty key |
| V2MapKey.TableEntry | um_crypto/qmc/src/v2_map/key.rs:29-32 | a key byte sampled at a position that is 4 modulo 8 is copied into the table unchanged (the shift is then 0) |
| V2MapKey.TableEntryPeriodic | um_crypto/qmc/src/v2_map/key.rs:29 | entry `k + n` equals entry `k`: the sampled position depends only on `k` modulo the key length |
| V2MapKey.CompressedKey | um_crypto/qmc/src/v2_map/key.rs:28-37 | a key shorter than 128 bytes gives a table that repeats with period `n` |
| V2MapKey.KeyCompress | um_crypto/qmc/src/v2_map/key.rs:19-40 | an error exactly for the empty key, and it is `QMCV2MapKeyEmpty`; otherwise 128 bytes, entry `k` being the shift-OR of `key[(k*k+71214) % n]` by `(idx+4) % 8` |
| V2MapKey.CompressedKeyEntries | um_crypto/qmc/src/v2_map/key.rs:28-33 | each table entry is the shift-OR of the key byte at the in-range scrambled index |
| V2MapKey.ShiftOrIsNotRotation | um_crypto/qmc/src/v2_map/key.rs:32 | on `'N'` with shift 3, the shift-OR gives `0x79` (the expected first entry) and a rotation would give `0x72` |
| V2MapKeyVectors.GoldenVector | um_crypto/qmc/src/v2_map/key.rs:47-68 | the 325-byte cyclic `a-zA-Z0-9` key compresses to the 128 listed bytes |
| V2Map.Decrypted | um_crypto/qmc/src/v2_map/mod.rs:35-37 | same length as the data; byte `i` is the v1 transform of byte `i` at `offset + i` |
| V2Map.QMC2Map.New | um_crypto/qmc/src/v2_map/mod.rs:26-29 | fails exactly for the empty key, with `QMCV2MapKeyEmpty`; otherwise it holds the compressed table |
| V2Map.QMC2Map.Decrypt | um_crypto/qmc/src/v2_map/mod.rs:31-38 | the buffer becomes its decryption at the given offset; the table is a value and cannot change |
| V2Map.DecryptedConcat | um_crypto/qmc/src/v2_map/mod.rs:35-37 | decrypting `a + b` at `off` is decrypting `a` at `off`, then `b` at `off` plus the length of `a` |
| V2Map.DecryptedInvolution | um_crypto/qmc/src/v2_map/mod.rs:35-37 | decrypting twice at the same offset restores the buffer |
| V2Map.DecryptTestVector | um_crypto/qmc/src/v2_map/mod.rs:41-57 | the 16 test bytes decrypt to zeros at offset 32760 with the compressed test key |
| V2Rc4Hash.HashFrom | um_crypto/qmc/src/v2_rc4/hash.rs:16-27 | the running value never decreases and stays below `2^32` |
| V2Rc4Hash.KeyHash | um_crypto/qmc/src/v2_rc4/hash.rs:14-30 | the hash lies in `[1, 2^32 - 1]` |
| V2Rc4Hash.Hash | um_crypto/qmc/src/v2_rc4/hash.rs:14-30 | the loop with `continue` and `break` computes `KeyHash`, in `[1, 2^32 - 1]` |
| V2Rc4Hash.HashIsAcceptOfNonZero | um_crypto/qmc/src/v2_rc4/hash.rs:17-19 | the hash of a key is the early-stopping product over its non-zero bytes alone |
| V2Rc4Hash.ZeroBytesIgnored | um_crypto/qmc/src/v2_rc4/hash.rs:17-19 | a zero byte anywhere changes nothing and does not end the scan |
| V2Rc4Hash.AllZeroHashIsOne | um_crypto/qmc/src/v2_rc4/hash.rs:15-19 | an empty or all-zero key hashes to 1 |
| V2Rc4Hash.HashGrowsOnAccept | um_crypto/qmc/src/v2_rc4/hash.rs:21-26 | an accepted byte strictly increases the value, and the final hash is at least that |
| V2Rc4Hash.HashStopsOnShrink | um_crypto/qmc/src/v2_rc4/hash.rs:21-24 | when the wrapped product is 0 or not larger, the scan stops with the previous value, whatever follows |
| V2Rc4Hash.WrappedProductAccepted | um_crypto/qmc/src/v2_rc4/hash.rs:21-22 | the multiplication wraps modulo `2^32`: `0x80000001 * 3` wraps to `0x80000003`, which passes the test |
| V2Rc4Hash.HashHelloWorld | um_crypto/qmc/src/v2_rc4/hash.rs:32-37 | `hash("hello world") == 4045008896` |
| V2Rc4Schedule.InitialState | um_crypto/qmc/src/v2_rc4/rc4.rs:25 | `n` entries, entry `k` being `k` modulo 256 (the `as u8` truncation) |
| V2Rc4Schedule.Swap | um_crypto/qmc/src/v2_rc4/rc4.rs:30 | the swapped slice has the same length; what it holds is `SwapExchanges` |
| V2Rc4Schedule.KsaFrom | um_crypto/qmc/src/v2_rc4/rc4.rs:28-31 | the remaining rounds keep the state's length; its multiset is `KsaFromPermutes` |
| V2Rc4Schedule.Ksa | um_crypto/qmc/src/v2_rc4/rc4.rs:23-34 | the scheduled state has the key's length; its multiset is `KsaPermutes` |
| V2Rc4Schedule.NextJ | um_crypto/qmc/src/v2_rc4/rc4.rs:29 | the next `j` of the key schedule is an index below `n` |
| V2Rc4Schedule.SwapExchanges | um_crypto/qmc/src/v2_rc4/rc4.rs:30 | a swap exchanges the two entries, keeps all others and keeps the multiset |
| V2Rc4Schedule.KsaFromPermutes | um_crypto/qmc/src/v2_rc4/rc4.rs:28-31 | the rest of the key schedule keeps the length and the multiset of the state |
| V2Rc4Schedule.KsaPermutes | um_crypto/qmc/src/v2_rc4/rc4.rs:23-34 | the scheduled state has the key's length and the multiset of `0, 1, ..., n-1` taken as `u8` |
| V2Rc4Schedule.SwapEntries | um_crypto/qmc/src/v2_rc4/rc4.rs:30 | the array becomes the swapped sequence |
| V2Rc4Schedule.InitState | um_crypto/qmc/src/v2_rc4/rc4.rs:23-34 | the loop over a fresh array computes the key schedule `Ksa(key)` |
| V2Rc4Schedule.InitialStateDistinct | um_crypto/qmc/src/v2_rc4/rc4.rs:25 | for `n <= 256` the initial entries are pairwise distinct |
| V2Rc4Schedule.InitialStateRepeats | um_crypto/qmc/src/v2_rc4/rc4.rs:25 | for `n > 256` the `u8` cast repeats values: entry 256 equals entry 0 |
| V2Rc4.Reduce | um_crypto/qmc/src/v2_rc4/rc4.rs:47-48 | `rem(n)` with a non-zero `n` yields an index below `n` |
| V2Rc4.Step | um_crypto/qmc/src/v2_rc4/rc4.rs:45-56 | the new `i` and `j` are below `n`; the state is the old one with entries `i` and `j` swapped; the output is an entry of it |
| V2Rc4.StepPermutes | um_crypto/qmc/src/v2_rc4/rc4.rs:49 | one `generate` keeps the multiset of the state, and its output is one of the state's values |
| V2Rc4.IteratePermutes | um_crypto/qmc/src/v2_rc4/rc4.rs:45-56 | any number of `generate` calls keeps the multiset of the state |
| V2Rc4.DeriveFrom | um_crypto/qmc/src/v2_rc4/rc4.rs:58-65 | the derived buffer has the input's length |
| V2Rc4.DeriveConcat | um_crypto/qmc/src/v2_rc4/rc4.rs:62-64 | deriving `a + b` equals deriving `a` then `b` on the same generator, in output and final state |
| V2Rc4.DeriveInvolution | um_crypto/qmc/src/v2_rc4/rc4.rs:62-64 | deriving again from the same starting generator restores the input |
| V2Rc4.RC4.constructor | um_crypto/qmc/src/v2_rc4/rc4.rs:37-43 | the new generator holds the key schedule of the key, with `i = j = 0` |
| V2Rc4.RC4.Generate | um_crypto/qmc/src/v2_rc4/rc4.rs:45-56 | the fields and the returned byte are those of one `Step` on the old state |
| V2Rc4.RC4.DeriveByte | um_crypto/qmc/src/v2_rc4/rc4.rs:63 | after the step, the first `k + 1` bytes are the data XOR-ed with the first `k + 1` outputs of the starting generator, the rest of the buffer is still the data, and the generator is the one those outputs leave; it keeps its state array |
| V2Rc4.RC4.Derive | um_crypto/qmc/src/v2_rc4/rc4.rs:58-65 | the buffer and the generator become what `DeriveFrom` gives for the old ones |
| V2Rc4Vectors.KsaTestKey | um_crypto/qmc/src/v2_rc4/rc4.rs:70 | the key schedule of `"this is a test key"` is the listed 18-entry state |
| V2Rc4Vectors.TraceTest | um_crypto/qmc/src/v2_rc4/rc4.rs:68-78 | the first eleven keystream bytes of the test generator are the listed ones |
| V2Rc4Vectors.DeriveTestVector | um_crypto/qmc/src/v2_rc4/rc4.rs:68-78 | deriving `"hello world"` gives `68 75 6b 64 64 24 7f 60 7c 7d 60` and the listed final generator |
| V2Rc4Vectors.TestRc4 | um_crypto/qmc/src/v2_rc4/rc4.rs:68-78 | running the class on the test key and data yields the expected bytes, and the state differs from its copy |
| Keystream.StreamConcat | um_crypto/qmc/src/v2_rc4/rc4.rs:62-64 | XOR-ing a keystream into `a + b` is XOR-ing into `a`, then into `b` with the stream resumed after as many steps as `a` has bytes |
| FooterUtils.IsBase64Chr | um_crypto/qmc/src/footer/utils.rs:14-16 | an accepted byte lies in `0x2B..0x7A`, printable ASCII |
| FooterUtils.Base64ChrAlphabet | um_crypto/qmc/src/footer/utils.rs:14-16 | the test accepts exactly the 65 characters `A-Z`, `a-z`, `0-9`, `+`, `/`, `=` listed independently |
| FooterUtils.IsBase64 | um_crypto/qmc/src/footer/utils.rs:18-20 | holds exactly when every byte is alphanumeric, `+`, `/` or `=`; the empty slice is accepted |
| FooterUtils.IsBase64Concat | um_crypto/qmc/src/footer/utils.rs:18-20 | `is_base64(a + b) == is_base64(a) && is_base64(b)` |
| FooterUtils.Base64IsAscii | um_crypto/qmc/src/footer/utils.rs:14-16 | every base64 byte lies in `0x2B..0x7A`: printable ASCII, never NUL |
| FooterUtils.FromAsciiUtf16 | um_crypto/qmc/src/footer/utils.rs:23-30 | at most half the input's length; byte `k` is the low byte of unit `k`, which is non-zero ASCII with a zero high byte |
| FooterUtils.FromAsciiUtf16Stops | um_crypto/qmc/src/footer/utils.rs:24-28 | the output ends exactly at the first unit that fails the test |
| FooterUtils.FromAsciiUtf16IgnoresOddByte | um_crypto/qmc/src/footer/utils.rs:25 | a trailing odd byte never changes the result |
| FooterUtils.FromAsciiUtf16RoundTrip | um_crypto/qmc/src/footer/utils.rs:23-30 | non-zero ASCII text written as UTF-16LE reads back unchanged when a NUL unit or the end follows |
| AndroidSTag.Split | um_crypto/qmc/src/footer/android_stag.rs:41 | at least one field, and no field contains the separator |
| AndroidSTag.SplitJoin | um_crypto/qmc/src/footer/android_stag.rs:41 | splitting the comma-join of separator-free fields gives those fields back |
| AndroidSTag.DecimalValueBound | um_crypto/qmc/src/footer/android_stag.rs:53-55 | a digit string of `k` digits has a value below `10^k` |
| AndroidSTag.ShortIdFits | um_crypto/qmc/src/footer/android_stag.rs:53-55 | a digit id of at most 19 digits never exceeds `u64::MAX` |
| AndroidSTag.ParseShortId | um_crypto/qmc/src/footer/android_stag.rs:45-58 | a payload whose id has 1 to 19 digits is always accepted, so `StringToIntError` needs an empty id or at least 20 digits |
| AndroidSTag.ParseU64 | um_crypto/qmc/src/footer/android_stag.rs:53-55 | a digit string parses exactly when it is non-empty and at most `u64::MAX`, to its decimal value; otherwise `StringToIntError(id)` |
| AndroidSTag.DeclaredLength | um_crypto/qmc/src/footer/android_stag.rs:34-35 | a `u32` read big-endian from the four bytes before `"STag"`: the first is the most significant, the last the least |
| AndroidSTag.ParsePayload | um_crypto/qmc/src/footer/android_stag.rs:40-61 | success is metadata of size of the payload length + 8 with no ekey and an id within `u64`; and it happens only when the payload splits into three fields, the second `"2"` and the first a non-empty digit string whose decimal value is the id, the third being the media id |
| AndroidSTag.Parse | um_crypto/qmc/src/footer/android_stag.rs:28-64 | `BufferTooSmall(8)` exactly below 8 bytes; then `Ok(None)` exactly without `"STag"`; success has size = declared length + 8, within the buffer |
| AndroidSTag.ParseTooShort | um_crypto/qmc/src/footer/android_stag.rs:34-38 | a declared length beyond the bytes in front gives `BufferTooSmall(L + 8)` |
| AndroidSTag.ParseTrailer | um_crypto/qmc/src/footer/android_stag.rs:33-40 | whatever precedes the trailer, the payload parsed is exactly the last `L` bytes before the length |
| AndroidSTag.ParseNotThreeFields | um_crypto/qmc/src/footer/android_stag.rs:41-61 | a payload that does not split into exactly three fields gives `STagInvalidCSV` with the payload |
| AndroidSTag.ParseBadVersion | um_crypto/qmc/src/footer/android_stag.rs:42-44 | a version other than `"2"` gives `STagInvalidVersion`, whatever the id holds |
| AndroidSTag.ParseBadId | um_crypto/qmc/src/footer/android_stag.rs:45-47 | an id with a non-digit gives `STagInvalidId` |
| AndroidSTag.ParseEmptyId | um_crypto/qmc/src/footer/android_stag.rs:53-55 | an empty id passes the digit test and then fails with `StringToIntError` |
| AndroidSTag.ParseOverflowingId | um_crypto/qmc/src/footer/android_stag.rs:53-55 | an id above `u64::MAX` gives `StringToIntError` |
| AndroidSTag.ParseValidPayload | um_crypto/qmc/src/footer/android_stag.rs:49-58 | a valid payload gives `ekey = None`, size `L + 8`, the decimal id and the third field as media id |
| AndroidSTag.SplitCsv | um_crypto/qmc/src/footer/android_stag.rs:41 | the payload `id,version,mid` built from three comma-free fields splits back into exactly those fields |
| AndroidSTag.ParseFields | um_crypto/qmc/src/footer/android_stag.rs:41-58 | a payload whose fields are a digit id within `u64`, `"2"` and a media id is accepted with exactly that metadata |
| AndroidSTag.ParseRoundTrip | um_crypto/qmc/src/footer/android_stag.rs:28-64 | any prefix followed by the trailer of such a payload parses back to its id and media id, with the size of the whole trailer and no ekey |
| PcV1Legacy.TakeUntilZero | um_crypto/qmc/src/footer/pc_v1_legacy.rs:41-45 | a zero-free prefix of the input that ends at the first zero, or covers the whole input |
| PcV1Legacy.TakeUntilZeroToken | um_crypto/qmc/src/footer/pc_v1_legacy.rs:41-45 | a zero-free token followed by a zero, or by nothing, is taken whole |
| PcV1Legacy.DeclaredLength | um_crypto/qmc/src/footer/pc_v1_legacy.rs:29-30 | a `u32` read little-endian from the last four bytes: the first is the least significant, the last the most |
| PcV1Legacy.ParseRegion | um_crypto/qmc/src/footer/pc_v1_legacy.rs:40-55 | never `Ok(None)`; success holds the token up to the first zero, base64, with size `L + 4`; the only error is `PCv1EKeyInvalid` |
| PcV1Legacy.Parse | um_crypto/qmc/src/footer/pc_v1_legacy.rs:24-56 | never `Ok(None)`; `BufferTooSmall(8)` exactly below 8 bytes; `PCv1EKeyTooLarge(L)` for `L > 0x500`; success has size `L + 4` within the buffer and a base64 ekey of at most `0x500` bytes |
| PcV1Legacy.ParseTooShort | um_crypto/qmc/src/footer/pc_v1_legacy.rs:36-38 | a length within the limit but beyond the bytes in front gives `BufferTooSmall(L + 4)` |
| PcV1Legacy.ParseTrailer | um_crypto/qmc/src/footer/pc_v1_legacy.rs:29-40 | whatever precedes the trailer, the token is read from exactly its region |
| PcV1Legacy.Base64HasNoZero | um_crypto/qmc/src/footer/pc_v1_legacy.rs:43-47 | a base64 token holds no zero, so the zero padding ends it |
| PcV1Legacy.ParseRegionToken | um_crypto/qmc/src/footer/pc_v1_legacy.rs:40-55 | a region starting with a base64 token followed by a zero or by its end yields that token, with size region + 4 |
| PcV1Legacy.ParseRoundTrip | um_crypto/qmc/src/footer/pc_v1_legacy.rs:24-56 | any prefix followed by the trailer of such a region (at most `0x500` bytes) parses back to `Some(token)`, with the size of the whole trailer |
| PcV1Legacy.ParseInvalidToken | um_crypto/qmc/src/footer/pc_v1_legacy.rs:47-49 | a token with a byte outside the alphabet gives `PCv1EKeyInvalid` |
| PcV1Legacy.LimitBoundary | um_crypto/qmc/src/footer/pc_v1_legacy.rs:33-35 | the limit is inclusive: `0x501` is too large and `0x500` is not |
| Bytes.ReadU32BE | um_crypto/qmc/src/footer/android_stag.rs:35 | a value below `2^32` whose top byte is the first byte and whose low byte is the last |
| Bytes.ReadU32LE | um_crypto/qmc/src/footer/pc_v1_legacy.rs:30 | a value below `2^32` whose low byte is the first byte and whose top byte is the last |
| Bytes.ReadU32BERoundTrip | um_crypto/qmc/src/footer/android_stag.rs:35 | reading back the four big-endian bytes of any `u32` gives that `u32` |
| Bytes.ReadU32LERoundTrip | um_crypto/qmc/src/footer/pc_v1_legacy.rs:30 | reading back the four little-endian bytes of any `u32` gives that `u32` |
| PcV2MusicEx.Version | um_crypto/qmc/src/footer/pc_v2_musicex.rs:33-34 | the version is a `u32` read from the four bytes before the magic |
| PcV2MusicEx.Parse | um_crypto/qmc/src/footer/pc_v2_musicex.rs:27-43 | `BufferTooSmall(16)` below 16 bytes; `Ok(None)` without the magic; with the magic, `Ok(None)` only when the version is 1 and the body parser says so |
| PcV2MusicEx.TrailerFields | um_crypto/qmc/src/footer/pc_v2_musicex.rs:32-34 | a trailer ends in the magic, carries the version written, and keeps the body in front |
| PcV2MusicEx.ParseVersionOne | um_crypto/qmc/src/footer/pc_v2_musicex.rs:37 | version 1 yields exactly what the body parser makes of the bytes before the version field |
| PcV2MusicEx.ParseOtherVersion | um_crypto/qmc/src/footer/pc_v2_musicex.rs:36-39 | any other version gives `PCv2InvalidVersion(version)`, whatever the body |
| PcV2MusicEx.NoneOnlyWithoutMagic | um_crypto/qmc/src/footer/pc_v2_musicex.rs:32-42 | if the body parser never answers `Ok(None)`, then `Ok(None)` means exactly that the magic is missing |

## Left out

- The segmented RC4 driver is not part of this model: segment size, per-segment skip and generator caching.
- The segment key (`segment_key.rs`) is left out. It uses `f64` division and multiplication, and its rounding is observable.
- The cipher selector by key length is not part of this model.
- The footer dispatcher, its detection length and the `Metadata`/`FooterParseError` definitions are not part of this model. The variants in `Footer` are the ones the three recognizers construct or that `parse_v1` returns.
- `musicex_v1::parse_v1` is not part of this model. It is the parameter `parseV1` of `PcV2MusicEx.Parse`.
- Decryption of the ekey is left out.
- The base64 and MD5 wrappers are left out: they are thin layers over library code.
- The command-line program (file I/O, SQLite lookup, printing) is left out. For the map cipher, its chunked decryption loop is covered by `DecryptedConcat`. For the RC4 cipher, chunk invariance rests on the segmented RC4 driver, which is not part of this model; `DeriveConcat` only shows that `derive` continues its keystream across pieces.
- `hash` returns an `f64`. It is modelled as the exact `u32` value it widens, a `nat` below `2^32`.
- AndroidSTag.Parse: strings are kept as the bytes they come from, and `String::from_utf8_lossy` is not modelled. Which result is returned, the comma split, the version and digit tests and `size` are unaffected. On invalid UTF-8 only the texts of `mediaMid` and of the error payloads would differ.
- PcV1Legacy.Parse: `from_utf8_lossy` is not modelled. Any byte outside ASCII, replaced or not, fails the base64 test, and a base64 token is valid UTF-8. So every result is the same.
- V2Map.QMC2Map.Decrypt: offsets are unbounded, so the `usize` overflow of `offset + i` is not modelled.
- V2Rc4.Step: the `wrapping_add` on `usize` is modelled without wrap-around. Indices stay below `n`, so it wraps only for states near the `usize` range.
- V2Rc4.RC4.Derive: requires the buffer to be a different array from the state, which Rust's borrow rules guarantee.
- V2Rc4.Generator: an empty permutation makes `rem(0)` panic, so `generate` requires a non-empty state. `derive` on an empty buffer needs none.
