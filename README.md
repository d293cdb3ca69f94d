# Serverless passkey over BLE: a Dafny model of the application protocol

The system lets a phone (the credential holder) prove to a browser (the
verifier) that it holds an ML-DSA-44 private key. The two talk over one GATT
characteristic.

- The phone is the Android GATT peripheral of `MainActivity`. It only ever
  notifies: first its public key as a JSON text, later the signature.
- The browser is the React page `App.jsx`, a Web Bluetooth central. It waits
  until the accumulated text parses as JSON carrying `sigPub`, then writes a
  16-byte random challenge.
- The phone forwards the challenge to its signer. It then returns the
  2420-byte signature as an ordered run of notifications.
- The browser collects notifications until it has 2420 bytes, reassembles
  them and verifies the signature.

The model has five modules, one file each:

- `Wrappers` (`wrappers.dfy`): the optional value used for the source's
  nullable references.
- `Frames` (`frames.dfy`): bytes, the in-order concatenation `Flatten` of a
  run of frames and its length `TotalLength`. Both ends use them.
- `Holder` (`holder.dfy`): `MainActivity.kt`. The class `Peripheral` holds
  the session fields. These are `currentMtu` (a Kotlin `Int`, default 23),
  `lastDevice`, `pkcsChar` and `gattServer`. `startBleServer` sets
  `pkcsChar` and `gattServer`; the GATT callbacks set `currentMtu` and
  `lastDevice`.
  - `Peripheral` also records what the peripheral emits: the
    notifications (`outbox`), the GATT responses and the calls into Flutter.
  - The two send paths are one `Split` loop. Each chunk holds at most
    `min(currentMtu - 3, 512)` bytes. The 3 is the header of a Handle Value
    Notification (Bluetooth Core Specification, Vol 3, Part F, section
    3.4.7.1). The 512 is the longest attribute value (Vol 3, Part F, section
    3.2.9).
  - `Split` is proved against the specification function `Chunks`. The
    lemmas about `Chunks` give the round trip, the size bound, the frame
    count and the full-size inner frames.
- `Verifier` (`verifier.dfy`): `App.jsx`. The class `Central` holds the
  React state and refs as fields: `charac`, `status`, `publicKeyLoaded`,
  `publicKey`, `challengeBuf`, `pubKeyAccum`, `sigChunks` and
  `receivedSigLen`. It also keeps a log of challenge writes and of
  `ml_dsa44.verify` calls.
  - `HandleNotification` is the two-phase reassembler. `Reassemble` is the
    copy loop into a preallocated buffer.
  - `EXPECTED_SIG_BYTES` is 2420, the ML-DSA-44 signature size (FIPS 204,
    Table 2). The page reads it from its library as `ml_dsa44.SIG_BYTES`
    (`verifier-web/src/App.jsx:10`), whose value the source does not show;
    the model takes it to be 2420, and the completion test at line 104
    depends on that. `CHALLENGE_BYTES` is 16. The ML-DSA wrapper also hard-codes
    this message length (`PQClean/crypto_sign/ml-dsa-44/clean/ml_dsa_wrapper.c:22`).
- `Handshake` (`handshake.dfy`): the two halves together.
  - A signature of exactly 2420 bytes can be split by the holder at any
    positive chunk size and fed in order to the verifier. Then exactly one
    verification happens, on bytes equal to the signature, with no
    overshoot. The buffers end empty.
  - Whole sessions are built from these steps.

External code is given to the classes as constant function fields, so the
model assumes nothing about it:

- Base64 decoding, UTF-8 encoding and `TextDecoder`.
- `JSON.parse` together with the `sigPub` field and `atob`.
- `ml_dsa44.verify`.

The challenge's randomness is a parameter of 16 bytes. The signature the
phone's keystore returns is a parameter too.

Where the protocol's intended design and the code differ, the model follows the code:

- A characteristic write is answered with `GATT_SUCCESS` and forwarded
  whatever its length. The code has no check that it is exactly the nonce
  length.
- A disconnect leaves `lastDevice` as it was.
- Message boundaries are found by trial parsing for the key JSON and by the
  fixed size for the signature. There is no length prefix.
- Only the post-quantum suite exists. There is no device-identity message.
- Issuing a new challenge does not reset the signature chunks or the byte
  counter (`verifier-web/src/App.jsx:69-72`).

**Assumption about `App.jsx`.** The listener is attached once, in
`connectToPhone` (`verifier-web/src/App.jsx:47`). React then keeps the
`publicKeyLoaded` value from that render, `false`. So, as written, the test
at line 81 sends every notification to the JSON accumulator, and the
signature branch at line 97 is never reached when the page connects once.

The model therefore contains two handlers:

- `Central.HandleNotification` decides the phase from the current
  `publicKeyLoaded` field. This is the evident intent, and the session
  proofs use it.
- `Central.HandleNotificationAsAttached` reads the captured value, kept in
  the field `listenerKeyLoaded`. It models the code as written. See
  "## Findings".

## Model

| member | source | states |
|---|---|---|
| `Holder.Wrap32` | app/android/app/src/main/kotlin/com/example/app/MainActivity.kt:66 | the Kotlin `Int` result of `currentMtu - 3`: a 32-bit value congruent to the exact difference modulo 2^32, and equal to it when that fits |
| `Holder.Chunks` | app/android/app/src/main/kotlin/com/example/app/MainActivity.kt:67-73 | the frames the send loop emits: consecutive `perChunk`-byte slices of the payload, the last holding the remainder; `Split` is proved to emit exactly these, and the `Chunks…` lemmas state their properties |
| `Holder.PerChunk` | app/android/app/src/main/kotlin/com/example/app/MainActivity.kt:66 | a chunk never exceeds 512 bytes, nor MTU − 3 when the MTU exceeds 3; it is one of those two values; it is positive exactly when the MTU exceeds 3 (or is so negative that the Kotlin subtraction wraps) |
| `Holder.DefaultChunkSize` | app/android/app/src/main/kotlin/com/example/app/MainActivity.kt:40 | at the default MTU of 23 a notification carries 20 bytes |
| `Holder.ChunksFlatten` | app/android/app/src/main/kotlin/com/example/app/MainActivity.kt:67-73 | concatenating the emitted chunks in order gives back exactly the payload |
| `Holder.ChunksBounded` | app/android/app/src/main/kotlin/com/example/app/MainActivity.kt:66-70 | every emitted chunk is non-empty and at most the chunk size |
| `Holder.ChunksFullExceptLast` | app/android/app/src/main/kotlin/com/example/app/MainActivity.kt:68-72 | every chunk but the last has exactly the chunk size |
| `Holder.ChunksCount` | app/android/app/src/main/kotlin/com/example/app/MainActivity.kt:68-72 | the number of chunks is ceil(length / chunk size); an empty payload emits no notification |
| `Holder.Peripheral.constructor` | app/android/app/src/main/kotlin/com/example/app/MainActivity.kt:35-40 | a new session has MTU 23, no device, no characteristic, no server, and nothing sent |
| `Holder.Peripheral.StartBleServer` | app/android/app/src/main/kotlin/com/example/app/MainActivity.kt:146-178 | without an advertiser nothing is built; otherwise the characteristic exists and the server exists if the platform opened one |
| `Holder.Peripheral.Split` | app/android/app/src/main/kotlin/com/example/app/MainActivity.kt:63-73 | with no device or no characteristic nothing is sent and nothing changes; an empty payload sends nothing; a negative chunk size throws before sending; a zero chunk size never terminates; otherwise (and when the server exists) the outbox grows by exactly `Chunks(payload, PerChunk(currentMtu))`, using the current MTU; every notification ever sent is 1 to 512 bytes long |
| `Holder.Peripheral.SendSignature` | app/android/app/src/main/kotlin/com/example/app/MainActivity.kt:60-78 | a signature that is not valid base64 throws and sends nothing; otherwise the decoded bytes are sent as by `Split` |
| `Holder.Peripheral.SendPublicKey` | app/android/app/src/main/kotlin/com/example/app/MainActivity.kt:79-97 | the UTF-8 bytes of the JSON are sent as by `Split` |
| `Holder.Peripheral.OnConnectionStateChange` | app/android/app/src/main/kotlin/com/example/app/MainActivity.kt:179-188 | a connect records the device as `lastDevice` and tells Flutter; any other state changes nothing |
| `Holder.Peripheral.OnMtuChanged` | app/android/app/src/main/kotlin/com/example/app/MainActivity.kt:190-194 | the MTU becomes the new value and nothing else changes |
| `Holder.Peripheral.OnCharacteristicWriteRequest` | app/android/app/src/main/kotlin/com/example/app/MainActivity.kt:196-212 | every write is answered with GATT_SUCCESS whatever its length, sets `lastDevice`, and forwards the written bytes to Flutter |
| `Holder.Peripheral.OnDescriptorWriteRequest` | app/android/app/src/main/kotlin/com/example/app/MainActivity.kt:214-233 | a write to UUID 0x2902 is stored, answered with GATT_SUCCESS and reported to Flutter; a write to any other descriptor is answered with GATT_FAILURE and changes nothing else |
| `Verifier.VerdictStatus` | verifier-web/src/App.jsx:136-143 | the status shows "valid" exactly when verify returned true, "invalid" exactly when it returned false, and a verification error exactly when it threw |
| `Verifier.ChallengeBytes` | verifier-web/src/App.jsx:132 | `new Uint8Array(challengeBufRef.current)`: the stored challenge, or no bytes when no challenge was issued (a `null` buffer gives an empty array); the message of every verify call |
| `Verifier.KeyText` | verifier-web/src/App.jsx:82 | the JSON accumulator after a run of notifications, each decoded on its own and appended in arrival order |
| `Verifier.KeyTextConcat` | verifier-web/src/App.jsx:82 | accumulating two runs of notifications one after the other gives the first run's text followed by the second's |
| `Verifier.Reassemble` | verifier-web/src/App.jsx:112-117 | copying the chunks at a moving offset into a buffer of `receivedSigLen` bytes yields their in-order concatenation, exactly that long |
| `Frames.PrefixBelowTotal` | verifier-web/src/App.jsx:97-109 | fed non-empty chunks in order, the byte counter stays below the run's total until the last chunk |
| `Verifier.Central.constructor` | verifier-web/src/App.jsx:13-20 | a new page is idle, has no key, no challenge, an empty accumulator and no chunks |
| `Verifier.Central.Subscribed` | verifier-web/src/App.jsx:47-50 | the listener is attached and keeps the `publicKeyLoaded` value of that moment; the characteristic is stored and the page waits for the key |
| `Verifier.Central.SendChallengeAndReply` | verifier-web/src/App.jsx:58-74 | without a characteristic, or without a loaded key, nothing is written and `challengeBuf` is unchanged; otherwise the 16-byte challenge is stored, replacing any earlier one, and written |
| `Verifier.Central.AccumulateKey` | verifier-web/src/App.jsx:81-94 | the notification's text is appended to the JSON accumulator; the key becomes loaded exactly when the accumulated text parses and yields `sigPub`; the signature buffers and the verification log are untouched |
| `Verifier.Central.CollectSignature` | verifier-web/src/App.jsx:96-144 | the chunk is appended and the counter grows by its length (so it stays the sum of the chunk lengths); below 2420 bytes nothing is verified and the buffers are kept; at 2420 or more, the in-order concatenation (as long as the counter) is verified with the stored key and challenge, the buffers are reset to empty and 0, and the status reflects the verdict or the error |
| `Verifier.Central.HandleNotification` | verifier-web/src/App.jsx:76-145 | before the key is loaded the accumulator grows; the key, the loaded flag and the status change only when the text parses and yields `sigPub`; the signature buffers and the log do not change; after that the notification is collected as signature, as by `CollectSignature` |
| `Verifier.Central.HandleNotificationAsAttached` | verifier-web/src/App.jsx:76-145 | the handler as attached: while its captured `publicKeyLoaded` is false, the notification only feeds the JSON accumulator, no signature chunk is collected and nothing is verified; captured true, it collects and verifies exactly as `CollectSignature` |
| `Handshake.ExactSignatureCompletesOnLastFrame` | verifier-web/src/App.jsx:104-119 | a 2420-byte signature split at any positive chunk size reaches 2420 bytes on its last chunk and no earlier one, and its chunks concatenate to the signature |
| `Handshake.DeliverSignature` | verifier-web/src/App.jsx:97-134 | the holder's split of a 2420-byte signature, fed in order to the verifier, gives exactly one verification, on bytes equal to the signature, with the stored key and challenge; the buffers end empty |
| `Handshake.DeliverKey` | verifier-web/src/App.jsx:81-94 | key JSON frames that first parse after the last frame load exactly the key parsed from the whole accumulated text, and no signature chunk is collected |
| `Handshake.DeliverAsAttached` | verifier-web/src/App.jsx:81-93 | through a listener attached before the key was loaded, no frame is collected as signature and nothing is verified |
| `Handshake.Connect` | app/android/app/src/main/kotlin/com/example/app/MainActivity.kt:179-233 | session set-up in callback order (server started, central connected, MTU negotiated, CCCD written, listener attached): the holder knows the central, has its characteristic and server, uses the negotiated MTU and has reported connect and subscribe; the verifier is subscribed with no key, no chunks and nothing written or verified |
| `Handshake.SendKey` | app/android/app/src/main/kotlin/com/example/app/MainActivity.kt:79-92 | the key JSON sent by the holder, once received by the verifier, loads the key |
| `Handshake.SendChallenge` | verifier-web/src/App.jsx:69-72 | the issued challenge is stored on the verifier and reaches the holder as a `challengeReceived` call |
| `Handshake.IntendedScenario` | verifier-web/src/App.jsx:58-145 | a whole session makes exactly one verification call, with the imported key, over the issued challenge, on the holder's signature, and the status reports its verdict; the holder has reported connect, subscribe and the challenge |
| `Handshake.AsAttachedScenario` | verifier-web/src/App.jsx:47-94 | the same session through the handler as attached writes the challenge but never calls verify |

## Left out

- Web Bluetooth discovery, connect and subscribe (`verifier-web/src/App.jsx:22-46`) are platform I/O. `Central.Subscribed` models only their outcome (lines 47-50).
- Android permissions, advertising settings and data, GATT server construction, `stopBleServer` and `onDestroy` are platform calls. `stopBleServer` and `onDestroy` close the server without changing any field. The Flutter method channel dispatch and `result.success` are left out too.
- Base64 decoding, UTF-8, `TextDecoder`, `JSON.parse` with `sigPub` and `atob`, and `ml_dsa44.verify` are constant function fields of the classes. No property of them is assumed. The Base64 encoding of a received challenge (`MainActivity.kt:207`) is dropped: `ChallengeReceived` carries the raw bytes.
- Signing on the phone and the native and WASM wrappers around ML-DSA-44 are part of the signer, which the model does not include. The signature is a parameter.
- Event delivery is sequential and in order. React's deferred state updates, the `await` on `writeValue` and `verify`, and a rejected `writeValue` promise are not modelled. A notification arriving while a verification is still pending is not modelled either.
- Status texts are reduced to constructors. The exception message in the error status, the browser's console logs, the Kotlin `Log` calls and the alerts are dropped; `SendChallengeAndReply` returns which alert it raised.
- Verifier.Central.Subscribed: the model assumes the page calls `connectToPhone` once, so one listener is attached. The button at `verifier-web/src/App.jsx:166-171` stays enabled, and each further connect adds a listener (`addEventListener`, line 47) beside the earlier ones. With two listeners attached before the key arrives, each notification's text is appended twice and the JSON never parses. A listener added after the key is loaded captures `true` and does reach verification. A second `Subscribed` in the model replaces the captured value instead.
- Holder.Peripheral.Split: for a chunk size of 0 the loop sends empty notifications forever. The model reports `Diverged` and leaves the outbox unchanged instead of modelling that unbounded stream.
- Holder.Peripheral.Split: `offset + perChunk` is not wrapped to 32 bits. That only matters for payloads within 512 bytes of 2^31.
- `onConnectionStateChange` does not clear `lastDevice` on disconnect, and the model keeps it that way. In this code a disconnect does not end the session.
- The key-JSON phase decodes each notification on its own (`KeyText`). The model does not equate that with decoding the whole text, which differs only when a multi-byte UTF-8 character straddles two notifications.
- The backend (accounts, devices, login tokens), the other UI components and the WASM readiness polling are outside the protocol.

## Findings

| source | as written | input that shows it | evidently intended | confidence | as-written member | corrected member |
|---|---|---|---|---|---|---|
| verifier-web/src/App.jsx:47 | The listener attached in `connectToPhone` is the `handleNotification` of that render, and its `publicKeyLoaded` stays at the `false` it had then. So line 81 sends every notification, the signature ones included, to the JSON accumulator. | Subscribe; receive the key JSON (the key is imported); send the challenge; receive the 2420-byte signature in chunks. Verification is never called. | The phase follows the current `publicKeyLoaded`, so once the key is loaded the chunks are collected and the signature is verified once. | not executed; high | `Handshake.AsAttachedScenario` | `Handshake.IntendedScenario` |
