# moonlight-windows, modelled in Dafny

This project models the parts of the moonlight-windows clients that can be stated
exactly. The clients are the Moonlight, Limelight, Limelight.Shared and Limelight_new
front-ends, which stream games from an NVIDIA GameStream server, and the native
bindings that connect them to the streaming library. The project proves properties of
each part. One Dafny module covers each component:

- `FrameCopy`, `SharedBinding`, `MoonlightBinding`, `LimelightBinding`, `BindingTypes`:
  the native binding shims. These copy a decode unit's fragments into one contiguous
  frame buffer, turn Opus sample counts into byte counts, and take copies of the stream
  configuration.
- `AnnexB`, `StreamSources`, `SampleRendezvous`: the H.264 byte-stream splitter (ITU-T
  H.264 Annex B) of the two Limelight media sources, their NAL-unit queues and sample
  requests, and the request/sample rendezvous of the Limelight stream page.
- `HexText`, `PairingCrypto`, `LimelightPairing`: the byte and hex helpers and the byte
  layouts of the pairing handshake.
- `Keyboard`, `PointerInput`, `XInputPolling`: the virtual-key table, the mouse, touch
  and key handlers of the stream pages, and the controller poller.
- `ConnectionFlow`, `AppLaunch`: the connection stages and their texts, the listener
  callbacks, and starting or resuming the streamed application.
- `NvHttp`, `XmlTree`, `XmlQuery`, `PairState`: the server's HTTP address, the IPv4
  test, the client id, the one-time XML fetch and its lookups, and the pair-state query.
- `Discovery`, `RoamingSettings`, `SettingsPage`: the list of computers in the picker,
  the last paired computer kept in the roaming settings, and the resolution and frame
  rate choices.
- `Common`, `Decimal`: C#'s exceptions, fixed-width casts, truncating division, decimal
  text and `Convert.ToInt32`.

Several of the source's quirks are modelled as written, and lemmas state them:

- Moonlight removes the "No Computers Found" placeholder from the list it has already
  published, not from its working copy, so once shown the placeholder survives
  (`Discovery.MoonlightNotFoundSurvives`).
- The controller poller sends a packet on every poll and never sends the reset for a
  disconnected controller.
- A missing tag makes the Limelight `XmlQuery` lookups throw `NullReferenceException`.
- The Annex B scan misses start codes in the last four bytes of a buffer.

I/O, the network, the clock, randomness and the native library are parameters or
recorded calls. Every other operation works on values or on the fields of a class, as
in the source.

## Model

| member | source | states |
|---|---|---|
| FrameCopy.Concat | Limelight-common-binding.Shared/Limelight-common-binding.cpp:71-77 | the fragment concatenation is as long as the sum of the fragment lengths |
| FrameCopy.ConcatAppend | Limelight-common-binding.Shared/Limelight-common-binding.cpp:71-77 | walking one more fragment appends exactly that fragment's bytes |
| FrameCopy.TotalLengthPrefix | Limelight-common-binding.Shared/Limelight-common-binding.cpp:74-75 | the running offset never passes the total length, so every copy stays in the room the caller made |
| FrameCopy.CopyFragment | Limelight-common-binding.Shared/Limelight-common-binding.cpp:74 | one `memcpy` writes the fragment at the offset and leaves every other byte of the buffer as it was |
| FrameCopy.CopyFragments | Limelight-common-binding.Shared/Limelight-common-binding.cpp:71-77 | after the walk the buffer starts with the fragments in list order, each at the sum of the lengths before it, and the bytes after them are untouched |
| FrameCopy.PlaybackBytes | Limelight-common-binding.Shared/Limelight-common-binding.cpp:82-118 | a byte count is played exactly when the decoder returns a positive count, and it is that count times two channels times two bytes, so between 4 and 960 |
| SharedBinding.NativeShim.constructor | Limelight-common-binding.Shared/Limelight-common-binding.cpp:23-34 | the static handles, the buffer pointer and the size start zeroed |
| SharedBinding.NativeShim.DrShimSetup | Limelight-common-binding.Shared/Limelight-common-binding.cpp:32-42 | the capacity becomes exactly 1048576 bytes; a failed allocation leaves a NULL buffer with the size already set |
| SharedBinding.NativeShim.DrShimRelease | Limelight-common-binding.Shared/Limelight-common-binding.cpp:52-55 | the buffer is freed while the buffer address and the size stay as they were |
| SharedBinding.NativeShim.DrShimSubmitDecodeUnit | Limelight-common-binding.Shared/Limelight-common-binding.cpp:56-80 | a unit longer than the capacity raises it to exactly `fullLength` and drops the old buffer unfreed, otherwise the capacity is unchanged; with a buffer, the fragments are copied in order from offset 0 and the renderer gets exactly bytes `[0, fullLength)`; a NULL buffer is reported as an error |
| SharedBinding.NativeShim.ArShimInit | Limelight-common-binding.Shared/Limelight-common-binding.cpp:86-94 | the decoder handle is whatever `opus_decoder_create` returned |
| SharedBinding.NativeShim.ArShimRelease | Limelight-common-binding.Shared/Limelight-common-binding.cpp:101-108 | the decoder is destroyed only when there is one, and the handle is then NULL, so a second release destroys nothing |
| SharedBinding.NativeShim.ArShimDecodeAndPlaySample | Limelight-common-binding.Shared/Limelight-common-binding.cpp:109-119 | `PlaySample` is called exactly when the decoded count is positive, with that count times four bytes |
| SharedBinding.NativeShim.StartConnection | Limelight-common-binding.Shared/Limelight-common-binding.cpp:153-193 | the host address is passed on, the five settings are copied verbatim, the callback handles are overwritten (a second start is not refused) and the native status is returned unchanged |
| SharedBinding.SendControllerInput | Limelight-common-binding.Shared/Limelight-common-binding.cpp:211-216 | always returns 0 whatever the controller state |
| MoonlightBinding.NativeShim.constructor | Moonlight-common-binding/Moonlight-common-binding.cpp:31-33 | the buffer size and pointer start at 0 and NULL |
| MoonlightBinding.NativeShim.DrShimSetup | Moonlight-common-binding/Moonlight-common-binding.cpp:36-38 | setup allocates nothing: buffer, size and every other static are unchanged, and the 1 MiB initial size is unused |
| MoonlightBinding.NativeShim.DrShimCleanup | Moonlight-common-binding/Moonlight-common-binding.cpp:39-42 | the buffer is freed while the buffer address and the size stay stale |
| MoonlightBinding.NativeShim.DrShimSubmitDecodeUnit | Moonlight-common-binding/Moonlight-common-binding.cpp:43-68 | a unit longer than the size raises it to exactly `fullLength` and allocates, otherwise the size is unchanged; the answer is `DR_NEED_IDR` exactly when the buffer address is then NULL (a first unit of length 0 included) and nothing is rendered; otherwise the fragments are copied in order and the renderer gets exactly bytes `[0, fullLength)` |
| MoonlightBinding.NativeShim.ArShimInit | Moonlight-common-binding/Moonlight-common-binding.cpp:74-82 | the decoder handle is whatever `opus_decoder_create` returned |
| MoonlightBinding.NativeShim.ArShimCleanup | Moonlight-common-binding/Moonlight-common-binding.cpp:83-90 | the decoder is destroyed only when there is one and the handle is then NULL |
| MoonlightBinding.NativeShim.ArShimDecodeAndPlaySample | Moonlight-common-binding/Moonlight-common-binding.cpp:91-101 | `PlaySample` is called exactly when the decoded count is positive, with that count times four bytes |
| MoonlightBinding.NativeShim.StartConnection | Moonlight-common-binding/Moonlight-common-binding.cpp:148-193 | the host address is passed on, the numeric settings and exactly 16 bytes each of the remote-input key and IV are copied, the callback handles are overwritten and the native status is returned unchanged |
| LimelightBinding.DrSubmitDecodeUnit | Limelight-common-binding/Limelight-common-binding.cpp:50-73 | each unit gets a buffer of its own of exactly `fullLength` bytes, filled with the fragments in order, whose length is logged; nothing is copied or logged when the allocation fails |
| LimelightBinding.StartConnection | Limelight-common-binding/Limelight-common-binding.cpp:80-99 | the host and the three configuration values are passed on, neither the decoder table nor a listener is installed, and `LiStartConnection`'s status is returned unchanged |
| BindingTypes.NewStreamConfiguration | Moonlight-common-binding/Moonlight-common-binding.hpp:12-49 | the numeric settings are stored as given and exactly the first 16 bytes of the key and of the IV are kept |
| BindingTypes.ButtonFlag | Moonlight-common-binding/Moonlight-common-binding.hpp:179-195 | every `ButtonFlags` member is a single bit |
| BindingTypes.ButtonFlagsDisjoint | Moonlight-common-binding/Moonlight-common-binding.hpp:179-195 | two different members share no bit |
| BindingTypes.ButtonFlagsCoverage | Moonlight-common-binding/Moonlight-common-binding.hpp:179-195 | every single bit except 0x0800 is the flag of some member |
| AnnexB.Starts | Limelight/AvStreamSource.cs:163-175 | the start offsets of the emitted units, one per unit, in order |
| AnnexB.LongCountMonotone | Limelight/AvStreamSource.cs:143-147 | the count of 4-byte prefixes never decreases along the buffer, so the frame counter never goes back |
| AnnexB.LongCountTail | Limelight/AvStreamSource.cs:137-143 | no 4-byte prefix is counted at or past the loop's exit index |
| AnnexB.CursorSkip | Limelight/AvStreamSource.cs:140-160 | an index holding no prefix changes neither the open unit nor the counter |
| AnnexB.CursorPrefix | Limelight/AvStreamSource.cs:143-175 | a prefix moves the open unit to it (one past the extra zero for the 4-byte form, which also skips the next index) |
| AnnexB.CutsAppend | Limelight/AvStreamSource.cs:162-166 | closing the open unit at the new prefix keeps the units disjoint, ordered, covering and correctly tagged |
| AnnexB.AppendShape | Limelight/AvStreamSource.cs:162-166 | the closed unit starts at a recognised prefix, has at least its three prefix bytes and ends where the new prefix starts |
| AnnexB.AppendCover | Limelight/AvStreamSource.cs:162-175 | after the append, the recognised prefixes below the new open unit are exactly the emitted starts |
| AnnexB.AppendFrames | Limelight/AvStreamSource.cs:143-165 | the closed unit carries the counter as it stands after the new prefix was counted |
| AnnexB.CutsOpen | Limelight/AvStreamSource.cs:163-175 | a prefix at offset 0 (or the first prefix) opens a unit without emitting one |
| AnnexB.Advance | Limelight/AvStreamSource.cs:137-177 | one loop iteration keeps the scan invariant |
| AnnexB.AdvancePrefix | Limelight/AvStreamSource.cs:143-175 | an iteration that finds a prefix keeps the scan invariant |
| AnnexB.ScanStep | Limelight/AvStreamSource.cs:140-176 | one loop iteration moves the index forward and does what the case (no prefix, 3-byte, 4-byte) calls for |
| AnnexB.FindNals | Limelight/AvStreamSource.cs:131-183 | the units start exactly at the recognised prefixes other than offset 0 (prefixes starting in the last four bytes are not recognised), each begins with `00 00 01`, ends where the next prefix starts minus the extra zero of a 4-byte prefix, the last ends at the buffer's end, units are disjoint and ordered, and each is tagged with the count of 4-byte prefixes up to the one that closes it |
| AnnexB.FinishCount | Limelight/AvStreamSource.cs:137-183 | at the loop's exit every 4-byte prefix has been counted and none lies past the open unit |
| AnnexB.Close | Limelight/AvStreamSource.cs:179-183 | closing the open unit at the buffer's end gives every property `FindNals` promises |
| AnnexB.CloseShape | Limelight/AvStreamSource.cs:179-183 | the final unit list is disjoint, ordered, each unit at least three bytes, and the last ends at the buffer's end |
| AnnexB.CloseBounds | Limelight/AvStreamSource.cs:179-183 | every final unit lies inside the buffer and starts at a recognised prefix |
| AnnexB.CloseOrder | Limelight/AvStreamSource.cs:179-183 | final units are in increasing order and do not overlap |
| AnnexB.CloseCover | Limelight/AvStreamSource.cs:163-180 | a recognised prefix is the start of a unit exactly when it is not at offset 0 |
| AnnexB.CloseFrames | Limelight/AvStreamSource.cs:146-182 | each final unit's tag is the starting counter plus the 4-byte prefixes up to the next unit, and the last one's is the counter after the scan |
| StreamSources.NalSamples | Limelight/AvStreamSource.cs:116-125 | one sample per cut, each a copy of its byte range with its tag |
| StreamSources.VideoReports | Limelight/AvStreamSource.cs:279-291 | one report per sample, stamped with the sample's frame number |
| StreamSources.AudioReports | Limelight/AvStreamSource.cs:228-240 | one report per audio sample, all stamped with the current frame number |
| StreamSources.VideoReportsAppend | Limelight/AvStreamSource.cs:279-291 | reporting two runs of samples is reporting them one after the other |
| StreamSources.NalSamplesStartCode | Limelight/AvStreamSource.cs:140-175 | every queued NAL unit begins with `00 00 01` |
| StreamSources.NalSamplesFrames | Limelight/AvStreamSource.cs:143-166 | every unit's tag lies between the counter before and after the scan, and tags never decrease along the buffer |
| StreamSources.FramesFollowCounts | Limelight/AvStreamSource.cs:143-166 | tags that count 4-byte prefixes up to increasing positions are bounded and ordered |
| StreamSources.Drain | Limelight/AvStreamSource.cs:247-293 | the drain hands out the oldest `min(outstanding, queued)` entries in order, uses one request per entry, and stops with no request or no entry left |
| StreamSources.AvStreamSource.constructor | Limelight/AvStreamSource.cs:73-82 | the NAL queue is created empty and the audio queue is never created |
| StreamSources.AvStreamSource.Shutdown | Limelight/AvStreamSource.cs:87-114 | the event is set and each stream with outstanding requests gets one empty sample and its count reset to 0 |
| StreamSources.AvStreamSource.EnqueueNal | Limelight/AvStreamSource.cs:116-125 | appends a copy of `buf[nalStart..nalEnd)` with its frame tag at the back of the queue |
| StreamSources.AvStreamSource.EnqueueCuts | Limelight/AvStreamSource.cs:165-182 | appends the samples of all cuts in order |
| StreamSources.AvStreamSource.SendVideoSamples | Limelight/AvStreamSource.cs:247-293 | a no-op once shut down; otherwise exactly `min(outstanding, queued)` oldest samples are reported in FIFO order and the count drops by one per sample |
| StreamSources.AvStreamSource.EnqueueVideoSamples | Limelight/AvStreamSource.cs:131-186 | the units of the Annex B split are appended in order, the counter advances by the 4-byte prefixes, and the queue is then drained |
| StreamSources.AvStreamSource.EnqueueAudioSamples | Limelight/AvStreamSource.cs:192-196 | with the queue never created, the call fails with a null dereference and changes nothing |
| StreamSources.AvStreamSource.SendAudioSamples | Limelight/AvStreamSource.cs:201-242 | nothing when shut down or with no request; a null queue makes LINQ `Count()` throw `ArgumentNullException`; otherwise the oldest samples are reported, stamped with the video frame number |
| StreamSources.AvStreamSource.GetSampleAsync | Limelight/AvStreamSource.cs:395-405 | a request only raises its stream's outstanding count |
| StreamSources.VideoStreamSource.constructor | Limelight/VideoStreamSource.cs:54-64 | the queue starts empty with no request outstanding |
| StreamSources.VideoStreamSource.Shutdown | Limelight/VideoStreamSource.cs:69-85 | one empty sample only when requests are outstanding, then the count is 0 |
| StreamSources.VideoStreamSource.EnqueueNal | Limelight/VideoStreamSource.cs:87-96 | appends a copy of `buf[nalStart..nalEnd)` with its frame tag |
| StreamSources.VideoStreamSource.EnqueueCuts | Limelight/VideoStreamSource.cs:136-153 | appends the samples of all cuts in order |
| StreamSources.VideoStreamSource.SendSamples | Limelight/VideoStreamSource.cs:162-208 | a no-op after shutdown; otherwise exactly `min(outstanding, queued)` oldest samples are reported in FIFO order |
| StreamSources.VideoStreamSource.EnqueueSamples | Limelight/VideoStreamSource.cs:102-157 | the same split, tagging and drain as the combined source; the counter never decreases |
| StreamSources.VideoStreamSource.GetSampleAsync | Limelight/VideoStreamSource.cs:272-283 | a video request is counted; an audio request throws `NotImplementedException` |
| StreamSources.ShortToBase16Str | Limelight/AvStreamSource.cs:315-326 | the 16-bit formatter gives four characters |
| StreamSources.IntToBase16Str | Limelight/AvStreamSource.cs:328-338 | the 32-bit formatter gives eight characters |
| StreamSources.LeHexValueCons | Limelight/AvStreamSource.cs:315-318 | one byte's `X2` text in front of hex pairs reads back as that byte plus 256 times the rest |
| StreamSources.ByteSplit16 | Limelight/AvStreamSource.cs:323-324 | the low byte and the shifted high byte together give the 16-bit pattern |
| StreamSources.ShortToBase16StrValue | Limelight/AvStreamSource.cs:320-326 | the text is upper-case hex pairs that read back, little-endian, as the value's 16-bit pattern |
| StreamSources.IntToBase16StrValue | Limelight/AvStreamSource.cs:328-338 | the text is upper-case hex pairs that read back, little-endian, as the value's 32-bit pattern |
| StreamSources.ByteSplit32 | Limelight/AvStreamSource.cs:332-335 | the four shifted bytes together give the 32-bit pattern |
| StreamSources.WaveFormatEx | Limelight/AvStreamSource.cs:349-356 | the codec private data is 36 characters |
| StreamSources.WaveFormatExFields | Limelight/AvStreamSource.cs:349-356 | each WAVEFORMATEX field reads back from its fixed character range |
| SampleRendezvous.SamplesOf | Limelight/StreamFrame/AvStreamSource.cs:60-124 | the samples the answered requests received, in answer order |
| SampleRendezvous.SamplesOfAppend | Limelight/StreamFrame/AvStreamSource.cs:60-124 | answering one more request appends exactly its sample |
| SampleRendezvous.AvStreamSource.constructor | Limelight/StreamFrame/AvStreamSource.cs:28-34 | both queues start empty with no request parked, and the delivery invariant holds |
| SampleRendezvous.AvStreamSource.VideoSampleRequested | Limelight/StreamFrame/AvStreamSource.cs:53-69 | a request takes the oldest queued sample if there is one; otherwise it becomes the parked request, overwriting an earlier one, which is never answered; a request is parked only while the queue is empty and every sample goes to at most one request, in FIFO order |
| SampleRendezvous.AvStreamSource.AudioSampleRequested | Limelight/StreamFrame/AvStreamSource.cs:71-90 | with a sample waiting the dequeue is only scheduled; otherwise the request is parked, replacing any parked one |
| SampleRendezvous.AvStreamSource.RunDeferredAudio | Limelight/StreamFrame/AvStreamSource.cs:77-82 | the scheduled dequeue answers its request with the oldest sample, or throws `InvalidOperationException` when an earlier task already emptied the queue |
| SampleRendezvous.AvStreamSource.EnqueueVideoSample | Limelight/StreamFrame/AvStreamSource.cs:92-114 | a parked request takes the sample and is cleared; otherwise the sample joins the back of the queue; the delivery invariant is kept |
| SampleRendezvous.AvStreamSource.EnqueueAudioSample | Limelight/StreamFrame/AvStreamSource.cs:116-134 | a parked request is answered synchronously and cleared; otherwise the sample is queued |
| HexText.HexDigit | Moonlight/Pairing/PairingCrypto.cs:29 | digit `d` is character `d` of the upper-case alphabet, and it reads back as `d` |
| HexText.HexCharValue | Moonlight/Pairing/PairingCrypto.cs:319 | a hex digit of either case has a value below 16 |
| HexText.HexPairValue | Moonlight/Pairing/PairingCrypto.cs:319 | two hex digits give a byte value |
| HexText.ByteHex | Limelight/AvStreamSource.cs:315-318 | `"X2"` gives two upper-case digits that read back as the byte |
| PairingCrypto.BytesToHex | Moonlight/Pairing/PairingCrypto.cs:298-308 | the text is `2n` upper-case characters, byte `j` at positions `2j` (high nibble) and `2j+1` (low nibble) |
| PairingCrypto.PairToByte | Moonlight/Pairing/PairingCrypto.cs:319 | `Convert.ToByte(pair, 16)`: a leading `-` throws `ArgumentException`, a leading `+` leaves the second character as the value, two hex digits of either case give high and low nibble, and anything else throws `FormatException` |
| PairingCrypto.HexToBytes | Moonlight/Pairing/PairingCrypto.cs:315-321 | a successful decoding has half as many bytes as the text has characters; the pairs are converted front to back and the first failing one decides the exception; an odd length whose pairs convert throws `ArgumentOutOfRangeException` |
| PairingCrypto.HexToBytesValues | Moonlight/Pairing/PairingCrypto.cs:317-320 | byte `k` is the conversion of characters `2k` and `2k+1`; for two hex digits the first is the high nibble |
| PairingCrypto.HexToBytesSucceeds | Moonlight/Pairing/PairingCrypto.cs:317-320 | decoding succeeds exactly on even-length text whose every pair converts; odd-length text whose pairs convert fails with `ArgumentOutOfRangeException`; a first pair starting with `-` fails with `ArgumentException` |
| PairingCrypto.HexPairsConvert | Moonlight/Pairing/PairingCrypto.cs:317-320 | every pair of text made of hex digits of either case converts, so such text of even length always decodes |
| PairingCrypto.SignedPairDecodes | Moonlight/Pairing/PairingCrypto.cs:319 | text that is not all hex digits can decode: `"+F"` decodes to `[15]` |
| PairingCrypto.IsHexSplit | Moonlight/Pairing/PairingCrypto.cs:317-320 | text is hex exactly when its first pair and the rest are |
| PairingCrypto.HexTail | Moonlight/Pairing/PairingCrypto.cs:301-306 | the encoding of bytes after the first is the encoding with its first pair removed |
| PairingCrypto.HexRoundTrip | Moonlight/Pairing/PairingCrypto.cs:298-321 | decoding what `BytesToHex` produced gives the bytes back |
| PairingCrypto.UpperHexDigitRoundTrip | Moonlight/Pairing/PairingCrypto.cs:315-320 | an upper-case digit is re-encoded as itself |
| PairingCrypto.HexOfDecoded | Moonlight/Pairing/PairingCrypto.cs:298-321 | on upper-case hex text, encoding the decoded bytes gives the text back |
| PairingCrypto.ConcatBytes | Moonlight/Pairing/PairingCrypto.cs:270-276 | the result is `a` followed by `b` |
| PairingCrypto.AsciiBytes | Moonlight/Pairing/PairingCrypto.cs:333 | the UTF-8 form of ASCII text has one byte per character |
| PairingCrypto.SaltPin | Moonlight/Pairing/PairingCrypto.cs:329-335 | the salt followed by the PIN's UTF-8 bytes, `|salt| + |pin|` long |
| PairingCrypto.BlockRoundedSize | Moonlight/Pairing/PairingCrypto.cs:41-74 | the least multiple of 16 not below the length; an aligned length is unchanged |
| PairingCrypto.PadToBlock | Moonlight/Pairing/PairingCrypto.cs:41-76 | the message is zero-padded to the next multiple of 16 with its bytes kept at the front |
| PairingCrypto.PaddingOfAligned | Moonlight/Pairing/PairingCrypto.cs:41-76 | a message already a whole number of blocks is passed through unchanged |
| PairingCrypto.SplitChallengeResponse | Moonlight/Pairing/PairingCrypto.cs:189-191 | bytes 0..19 are the server response and 20..35 the server challenge; a shorter answer throws `ArgumentException` |
| PairingCrypto.SplitPairingSecret | Moonlight/Pairing/PairingCrypto.cs:213-216 | bytes 0..15 are the secret and 16..271 the signature; a shorter answer throws `ArgumentException` |
| PairingCrypto.DecimalValueOfFour | Moonlight/Pairing/PairingCrypto.cs:149 | the value of four decimal digits, most significant first |
| PairingCrypto.RandomPin | Moonlight/Pairing/PairingCrypto.cs:149 | the PIN is four ASCII decimal digits whose value is the draw, zero-padded |
| PairingCrypto.RandomPinCovers | Moonlight/Pairing/PairingCrypto.cs:149 | every four-digit text from "0000" to "9998" is the PIN of exactly the draw it spells |
| PairingCrypto.AesKeyMaterial | Moonlight/Pairing/PairingCrypto.cs:373-375 | the key material is the first 16 bytes of the 20-byte SHA-1 digest |
| LimelightPairing.StubDecoding | Limelight/Crypto/PairingCrypto.cs:141-152 | the unfinished decoder's answer has `len / 2` bytes |
| LimelightPairing.HexToBytes | Limelight/Crypto/PairingCrypto.cs:141-152 | returns `len / 2` bytes, all zero, whatever the text says |
| LimelightPairing.StubDecodingLosesBytes | Limelight/Crypto/PairingCrypto.cs:141-152 | the stub does not give back any input with a non-zero byte, where the finished decoder does |
| LimelightPairing.SaltPin | Limelight/Crypto/PairingCrypto.cs:161-167 | every call throws `ArrayTypeMismatchException`: `Array.Copy` cannot store the PIN's `char` elements in a `byte` array, whatever the salt and PIN |
| LimelightPairing.SaltPinDiscrepancy | Limelight/Crypto/PairingCrypto.cs:161-167 | on every ASCII PIN this `SaltPin` throws where the Moonlight one returns the salt followed by the PIN's character codes |
| Keyboard.TranslationsInRange | Moonlight/StreamFrame/KeyboardHelper.cs:93-273 | every value either table assigns is -1 (Insert) or below 0x8000 |
| Keyboard.OrKeyPrefixIsBitwiseOr | Moonlight/StreamFrame/KeyboardHelper.cs:277 | `(0x80 << 8) | t` on 16 bits sets bit 15 and keeps the other bits |
| Keyboard.KeyCode | Moonlight/StreamFrame/KeyboardHelper.cs:277 | the short sent for a translation: -1 stays -1, a value below 0x8000 becomes that value minus 0x8000, always negative |
| Keyboard.TranslateVirtualKey | Moonlight/StreamFrame/KeyboardHelper.cs:93-278 | 0 exactly for keys the table does not recognise, otherwise the negative prefixed code of the translation |
| Keyboard.SharedTranslateVirtualKey | Limelight.Shared/StreamFrame/KeyboardHelper.cs:81-241 | the same for the shared table |
| Keyboard.RangeKeys | Moonlight/StreamFrame/KeyboardHelper.cs:97-116 | digits, letters, number-pad digits and F1-F12 are sent as the key's own number with bit 15 set, in both tables |
| Keyboard.SpecialKeys | Moonlight/StreamFrame/KeyboardHelper.cs:149-173 | Insert is sent as -1, Delete as the period code, Enter as 0x0d, Backspace not at all |
| Keyboard.ModifierVariantsCollapse | Moonlight/StreamFrame/KeyboardHelper.cs:121-227 | left, right and generic Alt, Control and Shift give one code each |
| Keyboard.SharedIsRestriction | Limelight.Shared/StreamFrame/KeyboardHelper.cs:81-241 | wherever the shared table sends a code the Moonlight table sends the same one, and the two differ exactly on the twelve punctuation and Print Screen keys |
| Keyboard.GetModifierFlags | Moonlight/StreamFrame/KeyboardHelper.cs:68-91 | each modifier bit is set exactly when its key is held, and no other bit is set |
| PointerInput.GetButtonFlags | Moonlight/StreamFrame/StreamFrame.xaml.cs:155-173 | the left, middle and right bits are set exactly for the pressed buttons, and nothing else |
| PointerInput.ChangedButtons | Moonlight/StreamFrame/StreamFrame.xaml.cs:204-260 | a button's bit in `old ^ new` is set exactly when that button changed |
| PointerInput.ButtonEvents | Moonlight/StreamFrame/StreamFrame.xaml.cs:205-275 | one event of the given action for each of left, middle and right whose bit is set, and no other events |
| PointerInput.MoveStep | Moonlight/StreamFrame/StreamFrame.xaml.cs:292-298 | no move when the position is unchanged; otherwise each component is a `short` congruent to the difference modulo 2^16 |
| PointerInput.SumAppend | Moonlight/StreamFrame/StreamFrame.xaml.cs:285-309 | the summed moves of two runs of moves are the sums of the runs |
| PointerInput.ModSum | Moonlight/StreamFrame/StreamFrame.xaml.cs:297-298 | two multiples of 2^16 add up to one |
| PointerInput.GestureDeltasSum | Moonlight/StreamFrame/StreamFrame.xaml.cs:285-309 | over a whole touch gesture the moves sent add up to the last position minus the first, modulo 2^16 |
| PointerInput.ScrollAmount | Moonlight/StreamFrame/StreamFrame.xaml.cs:187 | the wheel delta over 120 rounded toward zero, as a `short`; a delta under one notch in either direction scrolls nothing |
| PointerInput.MoonlightStreamFrame.constructor | Moonlight/StreamFrame/StreamFrame.xaml.cs:155-330 | no buttons, no gesture, no capture, nothing sent |
| PointerInput.MoonlightStreamFrame.MouseWheel | Moonlight/StreamFrame/StreamFrame.xaml.cs:178-189 | a vertical wheel appends one scroll event of `ScrollAmount`; a horizontal one sends nothing; no other state changes |
| PointerInput.MoonlightStreamFrame.MouseDown | Moonlight/StreamFrame/StreamFrame.xaml.cs:194-231 | a mouse sends a Press for every changed button and stores the new button state; any other pointer starts a gesture at its position without sending |
| PointerInput.MoonlightStreamFrame.MouseUp | Moonlight/StreamFrame/StreamFrame.xaml.cs:236-280 | a mouse sends a Release for every changed button; a touch that did not move sends a left press then release |
| PointerInput.MoonlightStreamFrame.MouseMove | Moonlight/StreamFrame/StreamFrame.xaml.cs:285-309 | a mouse is ignored; another pointer that moved sends the `short` step, marks the gesture moved and records its position |
| PointerInput.MoonlightStreamFrame.RelativeMouseMoved | Moonlight/StreamFrame/StreamFrame.xaml.cs:311-319 | raw deltas are sent as `short` only while the mouse is captured |
| PointerInput.MoonlightStreamFrame.CaptureMouse | Moonlight/StreamFrame/StreamFrame.xaml.cs:111-118 | capture is on and nothing else changes |
| PointerInput.MoonlightStreamFrame.ReleaseMouse | Moonlight/StreamFrame/StreamFrame.xaml.cs:120-129 | capture is off and nothing else changes |
| PointerInput.MoonlightStreamFrame.WindowKeyDown | Moonlight/StreamFrame/StreamFrame.xaml.cs:325-349 | capture flips exactly when Shift, Alt and Ctrl are all held; a recognised key is sent Down with the held modifiers |
| PointerInput.MoonlightStreamFrame.WindowKeyUp | Moonlight/StreamFrame/StreamFrame.xaml.cs:351-361 | a recognised key is sent Up with the held modifiers; capture is unchanged |
| PointerInput.AllModifiersHeld | Moonlight/StreamFrame/StreamFrame.xaml.cs:328-329 | the three modifier bits are all set exactly when all three keys are held |
| PointerInput.KeyEvents | Moonlight/StreamFrame/StreamFrame.xaml.cs:341-348 | at most one event, and one exactly when the code is non-zero |
| PointerInput.SharedStreamFrame.constructor | Limelight.Shared/StreamFrame/StreamFrame.xaml.cs:121-281 | no buttons, no gesture, nothing sent |
| PointerInput.SharedStreamFrame.MouseDown | Limelight.Shared/StreamFrame/StreamFrame.xaml.cs:144-184 | as on the Moonlight page: Presses for changed mouse buttons, or the start of a gesture |
| PointerInput.SharedStreamFrame.MouseUp | Limelight.Shared/StreamFrame/StreamFrame.xaml.cs:186-230 | Releases for changed mouse buttons, or a click for a touch that did not move |
| PointerInput.SharedStreamFrame.MouseMove | Limelight.Shared/StreamFrame/StreamFrame.xaml.cs:235-254 | every pointer, mice included, sends the `short` step when it moved and records its position |
| PointerInput.SharedStreamFrame.WindowKeyDown | Limelight.Shared/StreamFrame/StreamFrame.xaml.cs:259-269 | a key the shared table recognises is sent Down with the held modifiers; there is no capture toggle |
| PointerInput.SharedStreamFrame.WindowKeyUp | Limelight.Shared/StreamFrame/StreamFrame.xaml.cs:271-281 | a key the shared table recognises is sent Up |
| PointerInput.LimelightStreamFrame.constructor | Limelight/StreamFrame/StreamFrame.xaml.cs:129-183 | no gesture, nothing sent |
| PointerInput.LimelightStreamFrame.MouseDown | Limelight/StreamFrame/StreamFrame.xaml.cs:129-132 | any pointer starts a gesture; nothing is sent |
| PointerInput.LimelightStreamFrame.MouseUp | Limelight/StreamFrame/StreamFrame.xaml.cs:136-160 | a gesture that did not move is a left click |
| PointerInput.LimelightStreamFrame.MouseMove | Limelight/StreamFrame/StreamFrame.xaml.cs:164-183 | when the first and last intermediate points differ, their `short` difference is sent and the gesture is marked moved |
| PointerInput.NewStreamFrame.constructor | Limelight_new/StreamFrame.xaml.cs:381-434 | no gesture |
| PointerInput.NewStreamFrame.MouseDown | Limelight_new/StreamFrame.xaml.cs:381-384 | the gesture restarts |
| PointerInput.NewStreamFrame.MouseUp | Limelight_new/StreamFrame.xaml.cs:388-411 | nothing changes: the click it would send is commented out |
| PointerInput.NewStreamFrame.MouseMove | Limelight_new/StreamFrame.xaml.cs:415-434 | the gesture is marked moved exactly when the points differ; the send is commented out |
| PointerInput.NewStreamFrame.Cleanup | Limelight_new/StreamFrame.xaml.cs:450-454 | the gesture is forgotten |
| XInputPolling.BindingButton | Moonlight/Controllers/XInput.cs:48-103 | no XInput button is converted to the guide flag `Special` |
| XInputPolling.BindingKeepsBitPositions | Moonlight/Controllers/XInput.cs:48-103 | each converted flag sits at the same bit as the XInput button it comes from |
| XInputPolling.XInputButton | Moonlight/Controllers/XInput.cs:48-103 | every flag except `Special` comes from exactly the XInput button mapped to it |
| XInputPolling.BindingButtonInjective | Moonlight/Controllers/XInput.cs:48-103 | no two XInput buttons set the same flag |
| XInputPolling.ConvertButtonsExact | Moonlight/Controllers/XInput.cs:45-103 | a flag is set exactly when its XInput button is pressed; `Special` never is |
| XInputPolling.ConvertButtonsSize | Moonlight/Controllers/XInput.cs:45-103 | as many flags are set as buttons are pressed |
| XInputPolling.FlagValue | Moonlight/Controllers/XInput.cs:50-102 | the value ORed in for a flag is its binding value |
| XInputPolling.FlagWordSign | Moonlight/Controllers/XInput.cs:78-108 | the accumulated word fits 16 bits, and its `(short)` cast is negative exactly when Y is held |
| XInputPolling.PacketSign | Moonlight/Controllers/XInput.cs:106-114 | a packet's button flags are negative exactly when the controller's Y is pressed |
| XInputPolling.RoundPacketsExact | Moonlight/Controllers/XInput.cs:25-116 | one pass sends exactly one packet per connected controller whose packet number is not -1: the zeroing call is never reached |
| XInputPolling.XInput.constructor | Moonlight/Controllers/XInput.cs:12-13 | no controllers, not stopped, no worker |
| XInputPolling.XInput.Start | Moonlight/Controllers/XInput.cs:120-130 | controllers One to Four are created and the worker is started |
| XInputPolling.XInput.Stop | Moonlight/Controllers/XInput.cs:132-135 | only the stop flag is raised |
| XInputPolling.XInput.PollControllerWorker | Moonlight/Controllers/XInput.cs:15-118 | the packets sent over the passes are those of `WorkerPackets`: pass by pass, controller by controller |
| ConnectionFlow.StagePhrase | Moonlight/StreamFrame/ConnectionCallbacks.cs:55-90 | stages 1 to 10 have a phrase and every other number has none |
| ConnectionFlow.PhrasesDiffer | Moonlight/StreamFrame/ConnectionCallbacks.cs:60-89 | the phrases of two different stages differ at character 0, 9 or 13 |
| ConnectionFlow.DifferentPhrasePrefixes | Moonlight/StreamFrame/ConnectionCallbacks.cs:60-89 | texts that begin with the phrases of two different stages are different |
| ConnectionFlow.StageStartingText | Moonlight/StreamFrame/ConnectionCallbacks.cs:55-92 | the progress text is empty exactly for a stage without a phrase |
| ConnectionFlow.StageStartingTextsDistinct | Moonlight/StreamFrame/ConnectionCallbacks.cs:55-92 | the ten progress texts are pairwise different |
| ConnectionFlow.FailureText | Moonlight/StreamFrame/ConnectionCallbacks.cs:108-143 | a failure text exists exactly for a stage with a phrase |
| ConnectionFlow.FailureTextDecodes | Moonlight/StreamFrame/ConnectionCallbacks.cs:108-143 | a failure text determines both its stage and its error code |
| ConnectionFlow.FailureTextIsNotProgress | Moonlight/StreamFrame/ConnectionCallbacks.cs:55-143 | no failure text equals a progress text |
| ConnectionFlow.AfterStageFailed | Moonlight/StreamFrame/ConnectionCallbacks.cs:108-143 | an unlisted stage leaves the text as it was; a listed one replaces it with its failure text |
| ConnectionFlow.FinalReport | Moonlight/StreamFrame/Connection.cs:132-141 | success exactly when no failure text was set; otherwise the failure dialog shows that text |
| ConnectionFlow.NativeStartSucceedsIff | Moonlight/StreamFrame/Connection.cs:130-141 | a start that reaches the native call succeeds exactly when no text was set before and none of the callbacks the native call fired failed a listed stage |
| ConnectionFlow.LastProgress | Moonlight/StreamFrame/ConnectionCallbacks.cs:55-92 | the position of the last progress callback, with none after it, or -1 when none fired |
| ConnectionFlow.TextAfter | Moonlight/StreamFrame/ConnectionCallbacks.cs:55-92 | after the callbacks the state text is the progress text of the last `ClStageStarting`, or the earlier text when none fired |
| ConnectionFlow.MoonlightSession.constructor | Moonlight/StreamFrame/ConnectionCallbacks.cs:1-195 | no text, no poller, nothing forwarded, started, stopped or reported |
| ConnectionFlow.MoonlightSession.ClStageStarting | Moonlight/StreamFrame/ConnectionCallbacks.cs:55-92 | the state text becomes the stage's progress text; nothing else changes |
| ConnectionFlow.MoonlightSession.ClStageFailed | Moonlight/StreamFrame/ConnectionCallbacks.cs:108-143 | the failure text becomes `AfterStageFailed` of the old one; nothing else changes |
| ConnectionFlow.MoonlightSession.DrSubmitDecodeUnit | Moonlight/StreamFrame/ConnectionCallbacks.cs:26-30 | the unit is forwarded and the answer is 0 |
| ConnectionFlow.MoonlightSession.ArPlaySample | Moonlight/StreamFrame/ConnectionCallbacks.cs:44-47 | the sample is forwarded |
| ConnectionFlow.MoonlightSession.ClConnectionStarted | Moonlight/StreamFrame/ConnectionCallbacks.cs:148-156 | the mouse is captured and a fresh poller over controllers One to Four is started |
| ConnectionFlow.MoonlightSession.ClConnectionTerminated | Moonlight/StreamFrame/ConnectionCallbacks.cs:162-182 | an existing poller is stopped, one native stop is requested and the termination dialog is shown |
| ConnectionFlow.MoonlightSession.ApplyNativeCallbacks | Moonlight/StreamFrame/ConnectionCallbacks.cs:55-156 | the callbacks run in order: the state text ends as `TextAfter`, the failure text as `FailureAfter`, and a `ClConnectionStarted` leaves the mouse captured and a fresh poller running; nothing else changes |
| ConnectionFlow.MoonlightSession.StartConnection | Moonlight/StreamFrame/Connection.cs:84-142 | only a resolution that throws reports "Error resolving hostname" without starting; a null address from a failed connect goes on like a resolved one; an exception from `StartOrResumeApp` escapes with "Launching Steam" shown, no dialog and no native start; a refused launch reports its own text without starting; otherwise the native call is made with the address, null included, its callbacks update the state text, failure text, mouse capture and poller, and the report is `FinalReport` of the resulting failure text |
| ConnectionFlow.LimelightSession.constructor | Limelight/StreamFrame/ConnectionCallbacks.cs:1-185 | no text, no failure |
| ConnectionFlow.LimelightSession.ClStageStarting | Limelight/StreamFrame/ConnectionCallbacks.cs:67-108 | the state text becomes the stage's progress text |
| ConnectionFlow.LimelightSession.ClStageFailed | Limelight/StreamFrame/ConnectionCallbacks.cs:120-158 | the failure text becomes `AfterStageFailed` of the old one |
| ConnectionFlow.LimelightSession.DrSubmitDecodeUnit | Limelight/StreamFrame/ConnectionCallbacks.cs:29-33 | the unit completes a parked video request or joins the video queue; the audio side is untouched |
| ConnectionFlow.NewSession.constructor | Limelight_new/StreamFrame.xaml.cs:167-290 | no text, no failure, nothing reported |
| ConnectionFlow.NewSession.ClStageStarting | Limelight_new/StreamFrame.xaml.cs:167-208 | the state text becomes the stage's progress text |
| ConnectionFlow.NewSession.ClStageFailed | Limelight_new/StreamFrame.xaml.cs:220-258 | the failure text becomes `AfterStageFailed` of the old one |
| ConnectionFlow.NewSession.StartConnection | Limelight_new/StreamFrame.xaml.cs:290-342 | a null host is reported and then reported again as a launch failure; a host whose resolution throws escapes as an `AggregateException` with the resolving text shown and nothing reported; a launch query that throws reports a launch failure; otherwise the report is `FinalReport` of the failure text |
| AppLaunch.BigEndian32 | Moonlight/StreamFrame/Connection.cs:40-44 | the first four IV bytes read big-endian: below 2^32, with byte 0 as the top byte |
| AppLaunch.RiKeyId | Moonlight/StreamFrame/Connection.cs:40-44 | the `int` key id is negative exactly when the first IV byte has its top bit set |
| AppLaunch.RiKeyIdBytes | Moonlight/StreamFrame/Connection.cs:40-44 | writing the key id back as four big-endian bytes gives the first four IV bytes |
| AppLaunch.RiKeyIdInjective | Moonlight/StreamFrame/Connection.cs:40-44 | equal key ids come from equal first four IV bytes |
| AppLaunch.RiConfigString | Moonlight/StreamFrame/Connection.cs:45-47 | `&rikey=`, the key in upper-case hex, `&rikeyid=`, the key id in decimal, each at its place |
| AppLaunch.RiConfigKeyLength | Moonlight/StreamFrame/Connection.cs:45-47 | keys of different lengths give different strings |
| AppLaunch.RiConfigStringInjective | Moonlight/StreamFrame/Connection.cs:45-47 | the string determines the key and the first four IV bytes |
| AppLaunch.ServerInfoUrl | Moonlight/StreamFrame/Connection.cs:24 | the base URL followed by `/serverinfo?uniqueid=` and the id |
| AppLaunch.LaunchHead | Moonlight/StreamFrame/Connection.cs:52-54 | the launch URL starts with the base URL and `/launch?uniqueid=` |
| AppLaunch.ResumeHead | Moonlight/StreamFrame/Connection.cs:69 | the resume URL starts with the base URL and `/resume?uniqueid=` |
| AppLaunch.RequestsFrame | Moonlight/StreamFrame/Connection.cs:52-69 | both requests start with the base URL and end with the remote-input fields |
| AppLaunch.LaunchIsNotResume | Moonlight/StreamFrame/Connection.cs:50-78 | the launch and the resume request are different URLs |
| AppLaunch.ParseOneChar | Moonlight/StreamFrame/Connection.cs:37 | parsing one character gives its digit value for a digit and a format error otherwise |
| AppLaunch.MajorVersion | Moonlight/StreamFrame/Connection.cs:37 | a version succeeds exactly when it starts with a digit, giving that digit; empty text throws `ArgumentOutOfRangeException`, another first character `FormatException` |
| AppLaunch.SecondQuery | Moonlight/StreamFrame/Connection.cs:50-78 | launch when `currentgame` is `"0"`, resume otherwise |
| AppLaunch.MoonlightStartOrResumeApp | Moonlight/StreamFrame/Connection.cs:22-79 | throws exactly on a version without a leading digit; starts exactly when both server-info elements are present and the answer is present and not `"0"`; the server-info query always comes first |
| AppLaunch.SharedStartOrResumeApp | Limelight.Shared/StreamFrame/Connection.cs:20-69 | starts exactly when `currentgame` is present and the answer is present and not `"0"`; queries server info, then launch or resume |
| AppLaunch.FrontEndsAgree | Limelight.Shared/StreamFrame/Connection.cs:20-69 | on a version with a leading digit both front-ends send the same requests and reach the same verdict |
| AppLaunch.DigitRun | Limelight.Shared/StreamFrame/Connection.cs:121 | the maximal run of digits at a position |
| AppLaunch.MatchGroups | Limelight.Shared/StreamFrame/Connection.cs:121-122 | a match has the requested number of groups, each a non-empty run of digits |
| AppLaunch.TryLength | Limelight.Shared/StreamFrame/Connection.cs:121-122 | the same, trying shorter first groups after longer ones |
| AppLaunch.MatchOctets | Limelight.Shared/StreamFrame/Connection.cs:121-122 | a match has four groups |
| AppLaunch.Joined | Limelight.Shared/StreamFrame/Connection.cs:121 | groups joined by separators begin with the first group |
| AppLaunch.RunOfGroup | Limelight.Shared/StreamFrame/Connection.cs:121 | a digit group not followed by a digit is exactly the digit run there |
| AppLaunch.JoinedSplit | Limelight.Shared/StreamFrame/Connection.cs:121-122 | text holding joined groups holds the first group, its separator and the joined rest in turn |
| AppLaunch.MatchGroupsTakesRun | Limelight.Shared/StreamFrame/Connection.cs:121-122 | a digit run followed by a separator and matching groups matches as that run followed by those groups |
| AppLaunch.MatchSeparated | Limelight.Shared/StreamFrame/Connection.cs:121-122 | digit groups joined by non-digit, non-newline characters and not followed by a digit match as those groups |
| AppLaunch.QuadMatches | Limelight.Shared/StreamFrame/Connection.cs:121-122 | four such groups followed by text not starting with a digit match as those four |
| AppLaunch.DottedQuadMatches | Limelight.Shared/StreamFrame/Connection.cs:121-122 | a dotted quad of numbers matches as its four numbers |
| AppLaunch.AnySeparatorMatches | Limelight.Shared/StreamFrame/Connection.cs:121 | the unescaped dot accepts `1x2y3z4` as an address |
| AppLaunch.TrailingTextIgnored | Limelight.Shared/StreamFrame/Connection.cs:121 | text after the fourth group, such as a port, is ignored |
| AppLaunch.GroupByte | Limelight.Shared/StreamFrame/Connection.cs:124-127 | a group converts exactly when it is non-empty and at most 255; an empty group is a format error, a larger number an overflow |
| AppLaunch.PackAddress | Limelight.Shared/StreamFrame/Connection.cs:124-127 | the packed value fits 32 bits |
| AppLaunch.PackAddressOctets | Limelight.Shared/StreamFrame/Connection.cs:124-127 | unpacking gives the octets back, the first octet of the text in the low byte |
| AppLaunch.ServerAddress | Limelight.Shared/StreamFrame/Connection.cs:121-128 | succeeds exactly when the text matches and every octet is at most 255, and then byte k of the value is octet k+1; a failed match is a format error |
| AppLaunch.DottedQuadAddress | Limelight.Shared/StreamFrame/Connection.cs:121-128 | a dotted quad of bytes printed in decimal packs to those bytes |
| NvHttp.BaseUrl | Moonlight/Streaming/NvHttp.cs:19-36 | `scheme://`, the host and `:port`, each at its place |
| NvHttp.BaseUrlInjective | Moonlight/Streaming/NvHttp.cs:36 | two hosts never share a base URL |
| NvHttp.SplitDots | Moonlight/Streaming/NvHttp.cs:24 | a text always has at least one dot-separated part |
| NvHttp.SplitNoDot | Moonlight/Streaming/NvHttp.cs:24 | text without a dot is one part |
| NvHttp.SplitAtDot | Moonlight/Streaming/NvHttp.cs:24 | the part before the first dot comes first, then the parts of the rest |
| NvHttp.SplitQuad | Moonlight/Streaming/NvHttp.cs:24 | four dot-free parts joined by dots split back into those four |
| NvHttp.JoinFour | Moonlight/Streaming/NvHttp.cs:24 | four parts joined by dots form the dotted quad |
| NvHttp.JoinSplit | Moonlight/Streaming/NvHttp.cs:24 | joining the parts of a text with dots gives the text back |
| NvHttp.DropFinalNewline | Moonlight/Streaming/NvHttp.cs:24 | the text is the result, or the result with one final newline |
| NvHttp.OctetShape | Moonlight/Streaming/NvHttp.cs:24 | an octet is one to three digits |
| NvHttp.IPv4LiteralMatches | Moonlight/Streaming/NvHttp.cs:24-72 | every text the test accepts is matched by the pattern |
| NvHttp.MatchIsIPv4Literal | Moonlight/Streaming/NvHttp.cs:24-72 | every text the pattern matches is accepted by the test |
| NvHttp.IPv4LiteralIsPattern | Moonlight/Streaming/NvHttp.cs:24-72 | the test accepts exactly the texts the pattern matches, a single final newline included |
| NvHttp.DecimalValueOfThree | Moonlight/Streaming/NvHttp.cs:24 | the value of three digits, most significant first |
| NvHttp.OctetIsByte | Moonlight/Streaming/NvHttp.cs:24 | an octet is the canonical decimal form of a number below 256 |
| NvHttp.ByteIsOctet | Moonlight/Streaming/NvHttp.cs:24 | every byte printed in decimal is an octet |
| NvHttp.IPv4LiteralPacks | Limelight.Shared/MainPage/NvHttp.cs:25-80 | a hostname that passes the test packs into the native address without an exception, octet by octet |
| NvHttp.Truncate | Moonlight/Streaming/NvHttp.cs:126-130 | the empty string and a string within the limit come back unchanged; a longer one is cut to the limit; a negative limit on a non-empty string throws |
| NvHttp.TruncateIdempotent | Moonlight/Streaming/NvHttp.cs:126-130 | truncating twice to the same limit is truncating once |
| NvHttp.SharedUniqueId | Limelight.Shared/MainPage/NvHttp.cs:48-58 | 16 upper-case hex characters that decode to the first 8 token bytes; a shorter token fails |
| NvHttp.HexIsUpper | Moonlight/Pairing/PairingCrypto.cs:298-308 | the hex text is twice as long as the bytes and upper-case |
| NvHttp.StoredUniqueId | Moonlight/Streaming/NvHttp.cs:49-52 | an id exists exactly when the key is stored, and reading it fails exactly when the stored value is not bytes |
| NvHttp.MoonlightNvHttp.constructor | Moonlight/Streaming/NvHttp.cs:33-37 | any hostname is accepted and the base URL is `https://host:47984` |
| NvHttp.MoonlightNvHttp.GetUniqueId | Moonlight/Streaming/NvHttp.cs:44-60 | a stored id is reused, otherwise the generated bytes are stored first; either way the next call returns the same id, 16 upper-case hex characters when the store is well formed |
| NvHttp.MoonlightNvHttp.ResolveServerIPAddress | Moonlight/Streaming/NvHttp.cs:65-89 | a literal IPv4 hostname is its own address; any other is what resolution gave, `null` when it failed |
| NvHttp.SharedNvHttp.constructor | Limelight.Shared/MainPage/NvHttp.cs:34-41 | the hostname is kept; no address or base URL yet |
| NvHttp.SharedNvHttp.Create | Limelight.Shared/MainPage/NvHttp.cs:34-41 | fails with `ArgumentNullException` exactly for a blank hostname |
| NvHttp.SharedNvHttp.ServerIPAddress | Limelight.Shared/MainPage/NvHttp.cs:63-115 | the address is the hostname when it is an IPv4 literal and the resolved address otherwise, and the base URL is `https://address:47984`; a socket that never connected makes it throw `NullReferenceException` with nothing set |
| NvHttp.LimelightNvHttp.constructor | Limelight/MainPage/NvHttp.cs:33-40 | the hostname is kept; no address or base URL yet |
| NvHttp.LimelightNvHttp.Create | Limelight/MainPage/NvHttp.cs:33-40 | fails with `ArgumentNullException` exactly for a blank hostname |
| NvHttp.LimelightNvHttp.GetServerIPAddress | Limelight/MainPage/NvHttp.cs:59-111 | the same choice of address, with the base URL `http://address:47989`, and the same `NullReferenceException` with nothing set when the socket never connected |
| XmlTree.FirstNamedUnique | Moonlight/Streaming/XmlQuery.cs:75-83 | "the first element named `tag`" picks out one position of the sequence |
| XmlTree.Descendants | Moonlight/Streaming/XmlQuery.cs:75 | `Descendants` yields elements only, never text |
| XmlTree.DescendantsAppend | Moonlight/Streaming/XmlQuery.cs:75 | document order composes over runs of siblings: the descendants of `a + b` are those of `a` followed by those of `b` |
| XmlTree.NestedDescendants | Moonlight/Streaming/XmlQuery.cs:131-138 | everything below an element that `Descendants` found is itself among the descendants, so an inner search never leaves the document |
| XmlTree.Named | Limelight.Shared/MainPage/XmlQuery.cs:46 | the `where c.Name == tag` filter keeps exactly the elements with that name, empty iff none has it, and its head is the first such element |
| XmlTree.DescendantsNamed | Moonlight/Streaming/XmlQuery.cs:75 | every element `Descendants(tag)` yields carries the name `tag` |
| XmlTree.TextOfAppend | Moonlight/Streaming/XmlQuery.cs:83 | the text of a run of siblings is the text of its parts, in order |
| XmlTree.InnerText | Moonlight/Streaming/XmlQuery.cs:83 | `Value` of a node is the concatenated text of the node and everything below it |
| XmlQuery.Container | Moonlight/Streaming/XmlQuery.cs:46 | a held document is searched from its top-level element; no document is a null container |
| XmlQuery.ReadXmlElementIn | Moonlight/Streaming/XmlQuery.cs:68-84 | null exactly for a null container or when no descendant has the tag; otherwise the text of the first such descendant in document order |
| XmlQuery.ReadXmlRootAttributeIn | Moonlight/Streaming/XmlQuery.cs:92-116 | present exactly when the first `root` element exists and carries the attribute, and then it is that attribute's value |
| XmlQuery.RootAttributeOfDocument | Moonlight/Streaming/XmlQuery.cs:92-116 | read from a document, the root attribute is an attribute of the document element, and only when that element is called `root` |
| XmlQuery.SearchElementNoMatch | Moonlight/Streaming/XmlQuery.cs:125-142 | when no outer element's inner tag reads the known value, the search returns null |
| XmlQuery.SearchElementSkipsHead | Moonlight/Streaming/XmlQuery.cs:131-141 | an outer element whose inner tag does not read the known value is passed over: the search answers as on the rest |
| XmlQuery.SearchElementFindsFirst | Moonlight/Streaming/XmlQuery.cs:125-142 | the search answers from the first outer element whose inner tag reads the known value, with the first `tagToFind` inside that element |
| XmlQuery.SearchElementIn | Moonlight/Streaming/XmlQuery.cs:131-141 | the `foreach` loop returns what the search specification returns |
| XmlQuery.MoonlightXmlQuery.constructor | Moonlight/Streaming/XmlQuery.cs:31-35 | a new query holds its URL and has fetched nothing |
| XmlQuery.MoonlightXmlQuery.GetXml | Moonlight/Streaming/XmlQuery.cs:159-198 | the page is fetched only on the first call; a failed fetch leaves no document, a parse error is raised, and later calls change nothing |
| XmlQuery.MoonlightXmlQuery.ReadXmlElement | Moonlight/Streaming/XmlQuery.cs:41-47 | after the one-time fetch, the element read from the held document; it fails only when the first fetch's page does not parse |
| XmlQuery.MoonlightXmlQuery.ReadXmlRootAttribute | Moonlight/Streaming/XmlQuery.cs:54-60 | after the one-time fetch, the root attribute read from the held document; it fails only when the first fetch's page does not parse |
| XmlQuery.MoonlightXmlQuery.SearchElement | Moonlight/Streaming/XmlQuery.cs:125-142 | the first call fetches and parses once: a parse error is returned, a parsed document is held; whenever a document is held the answer is `Ok` of the search result over its `outerTag` descendants; with none (a failed fetch) a `NullReferenceException` |
| XmlQuery.MoonlightXmlQuery.Run | Moonlight/Streaming/XmlQuery.cs:144-150 | true exactly when a document is held after the fetch; false when the first fetch failed |
| XmlQuery.MoonlightFailedFetch | Moonlight/Streaming/XmlQuery.cs:159-169 | once the first fetch has failed, `Run` says false and every read is null, even when a later page would be available |
| XmlQuery.MoonlightFetchOnce | Moonlight/Streaming/XmlQuery.cs:159-169 | two reads of one query both read the first page fetched |
| XmlQuery.ReadXmlAttributeIn | Limelight.Shared/Streaming/XmlQuery.cs:55-71 | null for a null container; a `NullReferenceException` when no descendant has the tag; otherwise the first such descendant's text |
| XmlQuery.SearchAttributeNoStop | Limelight.Shared/Streaming/XmlQuery.cs:80-97 | when no outer element stops the loop, the search returns null |
| XmlQuery.StopsShift | Limelight.Shared/Streaming/XmlQuery.cs:87-95 | the first stopping element keeps its place, one earlier, once a non-stopping head is dropped |
| XmlQuery.SearchAttributeThrows | Limelight.Shared/Streaming/XmlQuery.cs:87-95 | an outer element without the inner tag, reached before any match, makes the search throw `NullReferenceException` |
| XmlQuery.SearchAttributeFindsFirst | Limelight.Shared/Streaming/XmlQuery.cs:87-95 | the first outer element whose inner tag reads the known value, reached before any throw, answers with its first `tagToFind` |
| XmlQuery.SearchAttributeSkipsHead | Limelight.Shared/Streaming/XmlQuery.cs:87-95 | an outer element that neither matches nor throws is skipped |
| XmlQuery.SearchAttributeStopsAtHead | Limelight.Shared/Streaming/XmlQuery.cs:87-95 | a head that throws or matches decides the search |
| XmlQuery.SearchAttributeIn | Limelight.Shared/Streaming/XmlQuery.cs:86-96 | the `foreach` loop returns what the search specification returns |
| XmlQuery.SharedStreamingXmlQuery.constructor | Limelight.Shared/Streaming/XmlQuery.cs:31-35 | a new query holds its URL and has fetched nothing |
| XmlQuery.SharedStreamingXmlQuery.GetXml | Limelight.Shared/Streaming/XmlQuery.cs:111-147 | the same one-time fetch as Moonlight's |
| XmlQuery.SharedStreamingXmlQuery.ReadXmlAttribute | Limelight.Shared/Streaming/XmlQuery.cs:41-47 | a first fetch whose text does not parse gives the parse error; every other call gives the attribute read from the held document, throwing when the tag is missing, or null without one; the first successful fetch's document is held |
| XmlQuery.SharedStreamingXmlQuery.SearchAttribute | Limelight.Shared/Streaming/XmlQuery.cs:80-97 | with a document, the throwing search over its `outerTag` descendants; with none a `NullReferenceException` |
| XmlQuery.SharedStreamingXmlQuery.Run | Limelight.Shared/Streaming/XmlQuery.cs:99-102 | runs the fetch once: the first call keeps the fetched text and its parsed document or gives the parse error; later calls and a failed fetch change nothing |
| XmlQuery.MainPageXmlQuery.constructor | Limelight.Shared/MainPage/XmlQuery.cs:30-36 | the query holds its URL, the fetched page and its parse |
| XmlQuery.MainPageXmlQuery.Create | Limelight.Shared/MainPage/XmlQuery.cs:120-148 | construction fails with `ArgumentNullException` when the fetch failed (the page parsed is null) and with the parser's error for a bad page; otherwise the query holds the parsed page |
| XmlQuery.MainPageXmlQuery.XmlAttribute | Limelight.Shared/MainPage/XmlQuery.cs:43-49 | throws exactly when no descendant has the tag; otherwise the first such descendant's text |
| XmlQuery.MainPageXmlQuery.SearchAttribute | Limelight.Shared/MainPage/XmlQuery.cs:81-95 | the throwing search over the document's `outerTag` descendants |
| XmlQuery.MainPageXmlQuery.XmlAttributeElement | Limelight.Shared/MainPage/XmlQuery.cs:102-111 | null exactly when no descendant has the tag; otherwise the first such descendant |
| XmlQuery.ElementCarriesAttribute | Limelight.Shared/MainPage/XmlQuery.cs:43-111 | `XmlAttributeElement` finds an element exactly when `XmlAttribute` succeeds, and the attribute is that element's text |
| PairState.PairStateOf | Moonlight/Pairing/PairingManager.cs:75-102 | "paired" exactly when the status code parses, is not 401 and the first `PairStatus` reads `1`; it throws exactly when the status code does not parse; no page means unknown |
| PairState.UnauthorizedMeansUnpaired | Moonlight/Pairing/PairingManager.cs:81-85 | a page whose status code is 401 says "not paired" whatever else it holds |
| PairState.NoStatusMeansUnknown | Moonlight/Pairing/PairingManager.cs:75-79 | without a `root` element carrying a status code the state is unknown |
| PairState.PairedIffPairStatusOne | Moonlight/Pairing/PairingManager.cs:87-102 | with a numeric non-401 status, "paired" iff the first `PairStatus` reads `1`, and unknown iff there is none |
| PairState.FetchedDocument | Moonlight/Streaming/XmlQuery.cs:159-198 | an error exactly when a page was fetched and does not parse; a document only when it is the parse of the fetched page |
| PairState.WithUniqueId | Moonlight/Streaming/NvHttp.cs:44-60 | after `GetUniqueId` the settings hold an id and every earlier setting is kept |
| PairState.PairOutcomeOf | Moonlight/Pairing/PairingManager.cs:30-60 | pairing succeeds exactly for an unpaired client whose handshake succeeds; "already paired" exactly when the query says paired; errors come only from the query |
| PairState.PairingManager.constructor | Moonlight/Pairing/PairingManager.cs:22-25 | the manager keeps the server's `NvHttp` |
| PairState.PairingManager.QueryPairState | Moonlight/Pairing/PairingManager.cs:69-103 | the settings gain the client id; the URL is `baseUrl/serverinfo?uniqueid=<id>`; the answer is the pair state of the one page fetched |
| PairState.PairingManager.Pair | Moonlight/Pairing/PairingManager.cs:30-60 | the outcome follows the pair state and the handshake; the computer is saved, and loads back, exactly on success; otherwise only the client id is added to the settings |
| Discovery.NameOf | Moonlight/MainPage/MdnsDiscovery.cs:17-18 | the two placeholders always have a name |
| Discovery.IpOf | Moonlight/MainPage/MdnsDiscovery.cs:17-18 | the two placeholders never have an address |
| Discovery.Nvstream | Moonlight/MainPage/MdnsDiscovery.cs:101-115 | only responses advertising `_nvstream._tcp.local.` become computers, with their display name and address |
| Discovery.NvstreamCovers | Moonlight/MainPage/MdnsDiscovery.cs:101-115 | every response advertising the streaming service becomes a computer |
| Discovery.AddIfAbsent | Moonlight/MainPage/MdnsDiscovery.cs:36-40 | afterwards the address is listed; the list is unchanged when it already was, else the computer is appended |
| Discovery.AddAll | Moonlight/MainPage/MdnsDiscovery.cs:34-41 | the merge only appends, at most one entry per computer |
| Discovery.AddAllStep | Moonlight/MainPage/MdnsDiscovery.cs:34-41 | one more computer is one more add-if-absent |
| Discovery.AddAllCovers | Moonlight/MainPage/MdnsDiscovery.cs:34-41 | after the merge every computer's address is listed |
| Discovery.AddAllAppendsGiven | Moonlight/MainPage/MdnsDiscovery.cs:34-41 | every appended entry is one of the computers given |
| Discovery.AddAllKeepsPlaceholders | Moonlight/MainPage/MdnsDiscovery.cs:34-41 | the merge never adds or drops a placeholder |
| Discovery.AddAllDistinct | Moonlight/MainPage/MdnsDiscovery.cs:34-41 | a list without shared addresses keeps that property through the merge |
| Discovery.HasIpExtends | Moonlight/MainPage/MdnsDiscovery.cs:36 | a listed address stays listed in any extension of the list |
| Discovery.RemoveFirst | Moonlight/MainPage/MdnsDiscovery.cs:61 | `List.Remove` leaves a missing entry's list alone, else removes exactly one occurrence |
| Discovery.RemoveFirstKeeps | Moonlight/MainPage/MdnsDiscovery.cs:61 | removing one entry keeps every other entry |
| Discovery.RemoveFirstRemoves | Moonlight/MainPage/MdnsDiscovery.cs:58-63 | an entry present at most once is gone after its removal |
| Discovery.AsString | Moonlight/MainPage/MdnsDiscovery.cs:176-177 | `as string` gives a string exactly for a stored string |
| Discovery.LoadComputer | Moonlight/MainPage/MdnsDiscovery.cs:168-179 | a computer exactly when both keys are stored, each field the stored string or null |
| Discovery.SaveComputer | Moonlight/MainPage/MdnsDiscovery.cs:157-162 | the two keys are overwritten, nothing else changes, and loading gives the saved computer back |
| Discovery.SaveLoadRoundTrip | Moonlight/MainPage/MdnsDiscovery.cs:157-179 | loading after saving gives the saved computer back, whatever was stored before |
| Discovery.MergeComputers | Moonlight/MainPage/MdnsDiscovery.cs:34-41 | the loop over the added computers builds the merge |
| Discovery.MergeResponses | Moonlight/MainPage/MdnsDiscovery.cs:101-115 | the loop over the responses merges exactly the streaming computers |
| Discovery.AddResponses | Moonlight/MainPage/MdnsDiscovery.cs:90-116 | the responses' stage only appends |
| Discovery.AddLast | Moonlight/MainPage/MdnsDiscovery.cs:119-128 | the last paired computer's stage only appends |
| Discovery.StagesKeepPlaceholders | Moonlight/MainPage/MdnsDiscovery.cs:90-128 | neither online stage adds or drops a placeholder |
| Discovery.StagesCover | Moonlight/MainPage/MdnsDiscovery.cs:90-128 | after the online stages every streaming computer that answered and the last paired computer are listed |
| Discovery.OnlineStages | Moonlight/MainPage/MdnsDiscovery.cs:90-128 | the two loops build the two stages |
| Discovery.MoonlightUnmodifiedKeepsList | Moonlight/MainPage/MdnsDiscovery.cs:139-147 | a run that flags no modification built exactly the list it started from |
| Discovery.MoonlightNotFoundSurvives | Moonlight/MainPage/MdnsDiscovery.cs:93-141 | once published, "No Computers Found" stays through every online run |
| Discovery.MoonlightOffline | Moonlight/MainPage/MdnsDiscovery.cs:46-54 | offline, "no network" appears exactly when nothing else is listed; otherwise only the added computers are merged |
| Discovery.MoonlightOnlineDropsNoNetwork | Moonlight/MainPage/MdnsDiscovery.cs:58-63 | online, a single "no network" placeholder is gone |
| Discovery.MoonlightNotFoundAlone | Moonlight/MainPage/MdnsDiscovery.cs:130-136 | online, "not found" is added only to an otherwise empty list |
| Discovery.MoonlightOnlineCovers | Moonlight/MainPage/MdnsDiscovery.cs:90-128 | online, every streaming computer that answered and the last paired computer are listed |
| Discovery.MoonlightWorkingCopy | Moonlight/MainPage/MdnsDiscovery.cs:30-137 | the working copy and its flag are the run's list and flag |
| Discovery.MoonlightMainPage.constructor | Moonlight/MainPage/MdnsDiscovery.cs:17-19 | the page starts with empty lists and a picker that does not share the published list |
| Discovery.MoonlightMainPage.ShowPublishedList | Moonlight/MainPage/MainPageCommon.cs:76 | the picker's source becomes the published list object itself, which nothing else changes |
| Discovery.MoonlightMainPage.EnumerateEligibleMachines | Moonlight/MainPage/MdnsDiscovery.cs:26-148 | the published list becomes the run's list when the run counts as modified and is otherwise unchanged; the picker is pointed at the new list only on a modification with nothing selected; a picker still sharing the old list loses "No Computers Found" when it is removed in place; the added computers are kept |
| Discovery.AsEntries | Limelight.Shared/MainPage/MdnsDiscovery.cs:34 | `AddRange(addedPCs)` lists each added computer, in order, and no placeholder |
| Discovery.SharedRunStartsFromAdded | Limelight.Shared/MainPage/MdnsDiscovery.cs:26-45 | every run starts afresh from all the added computers, in order; offline it adds only "no network", exactly when there are none |
| Discovery.SharedRunOnline | Limelight.Shared/MainPage/MdnsDiscovery.cs:46-124 | online, "no network" is gone, "not found" only stands alone, and every streaming computer that answered and the last paired computer are listed |
| Discovery.SharedMainPage.constructor | Limelight.Shared/MainPage/MdnsDiscovery.cs:24-26 | the page starts with empty lists |
| Discovery.SharedMainPage.EnumerateEligibleMachines | Limelight.Shared/MainPage/MdnsDiscovery.cs:24-131 | the run's list always replaces the published one; the picker follows only with nothing selected |
| Discovery.LimelightRunExact | Limelight/MainPage/MdnsDiscovery.cs:24-74 | offline or after a failed browse the list is empty; otherwise it lists exactly the streaming computers that answered, no two sharing an address |
| Discovery.PlaceholderText | Limelight/MainPage/MdnsDiscovery.cs:78-89 | the three texts for no, one and several computers |
| Discovery.PlaceholderTextInjective | Limelight/MainPage/MdnsDiscovery.cs:78-89 | different counts never share a placeholder text |
| Discovery.LimelightMainPage.constructor | Limelight/MainPage/MdnsDiscovery.cs:24 | the page starts with an empty list |
| Discovery.LimelightMainPage.EnumerateEligibleMachines | Limelight/MainPage/MdnsDiscovery.cs:24-90 | the list is rebuilt from scratch and the placeholder counts it |
| RoamingSettings.SettingsStore.constructor | Moonlight/MainPage/MdnsDiscovery.cs:159 | a fresh settings container is empty |
| SettingsPage.StreamWidth | Moonlight/SettingsPage.xaml.cs:39-49 | the width is 1280 or 1920 |
| SettingsPage.StreamHeight | Moonlight/SettingsPage.xaml.cs:55-65 | the height is always the 16:9 partner of the width |
| SettingsPage.StreamFps | Moonlight/SettingsPage.xaml.cs:71-81 | the frame rate is 30 or 60 |
| SettingsPage.EachModeOneChoice | Moonlight/SettingsPage.xaml.cs:39-81 | each of 720p and 1080p at 30 and 60 frames per second is offered by exactly one of the four choices |
| SettingsPage.UnselectedIs1080p30 | Moonlight/SettingsPage.xaml.cs:39-81 | with nothing selected, or any index outside the box, the stream is 1080p at 30 |
| Decimal.ParseInt32 | Moonlight/Pairing/PairingManager.cs:82 | `Convert.ToInt32` yields only 32-bit values, failing with a format or overflow error otherwise |
| Decimal.ParseInt32OfToString | Moonlight/Pairing/PairingManager.cs:82 | every non-negative 32-bit number's decimal text parses back to it |
| Decimal.DecimalOfNatToString | Limelight/MainPage/MdnsDiscovery.cs:88 | the decimal text of a number reads back as that number |
| Decimal.NatToStringOfDecimal | Limelight/MainPage/MdnsDiscovery.cs:88 | canonical decimal text (no leading zero) is the text of its value |
| Decimal.NatToStringInjective | Limelight/MainPage/MdnsDiscovery.cs:88 | different numbers have different decimal texts |
| Common.ToInt32 | Moonlight/StreamFrame/Connection.cs:40-44 | the unchecked `(int)` of a 32-bit unsigned value is the signed value congruent to it modulo 2^32, negative exactly when the top bit is set |
| Common.ToShort | Moonlight/StreamFrame/StreamFrame.xaml.cs:187 | the `(short)` cast gives a 16-bit value congruent to its operand modulo 2^16, and leaves 16-bit values alone |
| Common.TruncDiv | Moonlight/StreamFrame/StreamFrame.xaml.cs:187 | C# `/` truncates toward zero: Euclidean for non-negative operands, negated for negative ones |

## Left out

- Threads, locks, `volatile` counters, `ManualResetEvent` and `Task.Run` are modelled single-threaded; async interleavings of the page handlers are not modelled.
- The network fetches (`HttpClient`, `GetStringAsync`), socket name resolution and the mDNS browse and resolve are parameters: the fetched text or `None`, the address the socket reports, and the responses or `None`.
- `XDocument.Parse` is a parameter from the fetched text to a document or an error; XML syntax is not modelled.
- `XmlQuery.MoonlightXmlQuery.GetXml`, `XmlQuery.SharedStreamingXmlQuery.GetXml`: the certificate lookup and HTTP filter setup before the fetch are not modelled. The model assumes exactly one "Limelight-Client" certificate. `certificates.Single()` throws `InvalidOperationException` when there is none or more than one. That happens after `ranQuery` is set, so such a query throws once and then stays without a document.
- AES, SHA-1, RSA, certificate and key storage, and the handshake request sequence are not modelled; the handshake reaches `PairState.PairingManager.Pair` as its boolean outcome.
- Random bytes (the client id, the PIN and the stream IV) are parameters.
- `malloc`, `free`, `opus_decoder_create`, `opus_decode`, `LiStartConnection`, `LiStopConnection` and the `LiSend*` calls are parameters or entries appended to a log of calls.
- The forwarding wrappers of `Moonlight-common-binding.hpp` are not modelled; each passes its arguments through unchanged to the native library.
- The configuration getters of `Limelight-common-binding.cpp` each return one field. They are the fields of `LimelightBinding.LimelightStreamConfiguration`, which `LimelightBinding.StartConnection` reads.
- Pointer positions are floating-point values in the source. Here they are integers already truncated to `short`.
- Strings are never null here. `String.IsNullOrEmpty` and the null checks reduce to the empty string; `Truncate` of a null string is not modelled.
- `\d` in the .NET IPv4 regex also matches non-ASCII Unicode digits. The model accepts ASCII digits only.
- `String.Compare(pairStatus, "1")` is culture-sensitive in the source. It is modelled as ordinal equality.
- `StreamSources.AvStreamSource`: `frameNumber` is a `ulong` in the source and an unbounded `nat` here; the wrap after 2^64 frames is not modelled.
- The Limelight and Limelight_new `ArPlaySample` callbacks have their bodies commented out, so they do nothing and have no member.
- The `ClStageComplete`, `ClDisplayMessage` and `ClDisplayTransientMessage` callbacks only write debug output. They have no member and are no-op variants of `ConnectionFlow.NativeCallback`.
- `ConnectionFlow.MoonlightSession.StartConnection`: `callbacks` holds only the listener callbacks fired before the native call returns. `ClConnectionTerminated` and the decoder and audio callbacks arrive later on other threads, and have their own members.
- `Moonlight/StreamFrame/AvStreamSource.cs`, `Limelight.Shared/StreamFrame/AvStreamSource.cs` and the media players are not part of this model; they hand samples across threads.
- `Limelight/StreamFrame/Connection.cs`, the `ConnectionManager` classes and the other `PairingManager` variants are not part of this model; they only sequence network requests.
- The UI is not modelled: pages, dialogs, `MessageDialog`, the progress bar and the 100 ms sleep.
- `GetDeviceName` and the `steamId` field of the early Limelight `Computer` are not modelled; no modelled decision reads them.
- Loading and saving the client certificate and key in the settings managers is not modelled. The roaming settings are a map field of `RoamingSettings.SettingsStore`.
- AppLaunch.SharedStartOrResumeApp: the shared project's `PairingCryptoHelpers.BytesToHex` is not part of this model; it is taken to write the same upper-case hex as `PairingCrypto.BytesToHex`.
- The shared project's `Pairing.bytesToHex`, used for its client id, is not part of this model. `NvHttp.SharedUniqueId` assumes it writes the same upper-case hex as Moonlight's `BytesToHex`.
- `Discovery.SaveComputer` requires a computer with a name and an address. `RoamingSettings` cannot store null, so saving a null field is not modelled.
- Computers are compared by value here, and the source compares them by reference. Of the list objects, only the picker sharing Moonlight's published list is tracked, by `Discovery.MoonlightMainPage`'s `pickerShowsPublished`. The two placeholders are separate constructors, so no computer can equal them, as in the source.
- `PairingCrypto.SaltPin`: `Encoding.UTF8.GetBytes` is modelled for ASCII PINs only. The PIN is four decimal digits.
- `XmlQuery.MainPageXmlQuery.Create`: the constructor's `Task.Run(...).Wait()` wraps the exception in an `AggregateException`. The model reports the inner exception.
- The `XmlQuery` constructors do not model `new Uri(url)` throwing `UriFormatException`; the URL is kept as a string.
- `PairState.PairingManager.constructor` takes the server's `NvHttp`, where the source builds it from the computer's address.

## Findings

| source | as written | input that shows it | evidently intended | confidence | as-written member | corrected member |
|---|---|---|---|---|---|---|
| Limelight/Crypto/PairingCrypto.cs:161-167 | `SaltPin` copies `pin.ToCharArray()` into a `byte[]` with `Array.Copy`, which refuses `char` to `byte` and throws `ArrayTypeMismatchException` | any salt with the PIN `"1234"` throws instead of giving the salt followed by `[49, 50, 51, 52]` | the salt followed by the PIN's character codes, as the Moonlight handshake builds it | not executed | LimelightPairing.SaltPin, LimelightPairing.SaltPinDiscrepancy | PairingCrypto.SaltPin |
| Limelight/Crypto/PairingCrypto.cs:141-152 | `HexToBytes` allocates `len / 2` bytes and its loop never writes them, so every input decodes to zeros | `"FF"` decodes to `[0]` instead of `[255]` | decode each pair of hex digits into one byte, the inverse of `bytesToHex` | not executed | LimelightPairing.HexToBytes, LimelightPairing.StubDecodingLosesBytes | PairingCrypto.HexToBytes, PairingCrypto.HexRoundTrip |
