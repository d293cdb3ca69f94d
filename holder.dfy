/** The credential holder: the Android GATT peripheral of `MainActivity`. It keeps
    a small session (the negotiated MTU, the last central seen, whether the
    passkey characteristic exists), answers the central's GATT requests, and
    sends the public-key JSON and the challenge signature as an ordered run of
    notifications no larger than the MTU allows. */
module Holder {
  import opened Wrappers
  import opened Frames

  /** ATT_MTU before any exchange (Bluetooth Core Specification, Vol 3, Part F, section 3.2.8). */
  const DEFAULT_MTU := 23
  /** Opcode and attribute handle of a Handle Value Notification (Vol 3, Part F, section 3.4.7.1). */
  const NOTIFY_HEADER := 3
  /** Largest attribute value (Vol 3, Part F, section 3.2.9). */
  const MAX_ATTR_LEN := 512

  /** `BluetoothProfile.STATE_CONNECTED`. */
  const STATE_CONNECTED := 2
  /** `BluetoothGatt.GATT_SUCCESS` and `BluetoothGatt.GATT_FAILURE`. */
  const GATT_SUCCESS := 0
  const GATT_FAILURE := 0x101

  /** A 128-bit UUID as an integer. */
  type Uuid = x: nat | x < 0x1_0000_0000_0000_0000_0000_0000_0000_0000
  /** The Client Characteristic Configuration Descriptor, 00002902-0000-1000-8000-00805f9b34fb. */
  const CCCD_UUID: Uuid := 0x0000_2902_0000_1000_8000_0080_5f9b_34fb

  const INT32_MIN := -0x8000_0000
  const INT32_MAX := 0x7fff_ffff
  /** A Kotlin `Int`. */
  type Int32 = x: int | -0x8000_0000 <= x < 0x8000_0000

  /** Kotlin's wrap-around of an `Int` result. */
  function Wrap32(x: int): (r: Int32)
    ensures INT32_MIN <= x <= INT32_MAX ==> r == x
    ensures (r - x) % 0x1_0000_0000 == 0
  {
    (x - INT32_MIN) % 0x1_0000_0000 + INT32_MIN
  }

  function Min(a: int, b: int): int { if a <= b then a else b }

  /** `min(currentMtu - 3, 512)`, with the subtraction done in Kotlin `Int`.
      The chunk size never exceeds the attribute limit, never exceeds the room
      an MTU above 3 leaves after the notification header, and is positive
      exactly when the MTU exceeds 3 (or lies so low that `mtu - 3` wraps). */
  function PerChunk(mtu: Int32): (r: int)
    ensures r <= MAX_ATTR_LEN
    ensures mtu > NOTIFY_HEADER ==> r <= mtu - NOTIFY_HEADER
    ensures mtu > NOTIFY_HEADER ==> r == mtu - NOTIFY_HEADER || r == MAX_ATTR_LEN
    ensures r > 0 <==> (mtu > NOTIFY_HEADER || mtu < INT32_MIN + NOTIFY_HEADER)
  {
    Min(Wrap32(mtu - NOTIFY_HEADER), MAX_ATTR_LEN)
  }

  /** At the default MTU a notification carries 20 bytes. */
  lemma DefaultChunkSize()
    ensures PerChunk(DEFAULT_MTU) == 20
  {
  }

  /** The frames the send loop emits for `payload`: consecutive slices of
      `perChunk` bytes, the last one holding the remainder. */
  function Chunks(payload: seq<byte>, perChunk: nat): seq<seq<byte>>
    requires perChunk > 0
    decreases |payload|
  {
    if |payload| == 0 then []
    else if |payload| <= perChunk then [payload]
    else [payload[..perChunk]] + Chunks(payload[perChunk..], perChunk)
  }

  /** Concatenating the frames in emission order gives back the payload. */
  lemma {:induction false} ChunksFlatten(payload: seq<byte>, perChunk: nat)
    requires perChunk > 0
    ensures Flatten(Chunks(payload, perChunk)) == payload
    decreases |payload|
  {
    if |payload| == 0 {
    } else if |payload| <= perChunk {
      assert [payload][..0] == [];
    } else {
      var rest := payload[perChunk..];
      ChunksFlatten(rest, perChunk);
      FlattenConcat([payload[..perChunk]], Chunks(rest, perChunk));
      assert [payload[..perChunk]][..0] == [];
      assert payload == payload[..perChunk] + rest;
    }
  }

  /** Every frame is non-empty and at most `perChunk` bytes long. */
  lemma {:induction false} ChunksBounded(payload: seq<byte>, perChunk: nat)
    requires perChunk > 0
    ensures forall i :: 0 <= i < |Chunks(payload, perChunk)| ==>
      0 < |Chunks(payload, perChunk)[i]| <= perChunk
    decreases |payload|
  {
    if |payload| > perChunk {
      ChunksBounded(payload[perChunk..], perChunk);
    }
  }

  /** Every frame but the last is exactly `perChunk` bytes long. */
  lemma {:induction false} ChunksFullExceptLast(payload: seq<byte>, perChunk: nat)
    requires perChunk > 0
    ensures forall i :: 0 <= i < |Chunks(payload, perChunk)| - 1 ==>
      |Chunks(payload, perChunk)[i]| == perChunk
    decreases |payload|
  {
    if |payload| > perChunk {
      ChunksFullExceptLast(payload[perChunk..], perChunk);
    }
  }

  /** The number of frames is the payload length divided by `perChunk`, rounded
      up; in particular an empty payload emits nothing. */
  lemma ChunksCount(payload: seq<byte>, perChunk: nat)
    requires perChunk > 0
    ensures |Chunks(payload, perChunk)| == (|payload| + perChunk - 1) / perChunk
    ensures |Chunks(payload, perChunk)| == 0 <==> |payload| == 0
  {
    ChunksCountBounds(payload, perChunk);
    CeilDivUnique(|payload|, perChunk, |Chunks(payload, perChunk)|);
  }

  /** The frame count `c` is the least with `c * perChunk >= |payload|`. */
  lemma {:induction false} ChunksCountBounds(payload: seq<byte>, perChunk: nat)
    requires perChunk > 0
    ensures |payload| <= |Chunks(payload, perChunk)| * perChunk < |payload| + perChunk
    decreases |payload|
  {
    if |payload| > perChunk {
      var rest := payload[perChunk..];
      ChunksCountBounds(rest, perChunk);
      var c := |Chunks(rest, perChunk)|;
      assert |Chunks(payload, perChunk)| == c + 1;
      assert (c + 1) * perChunk == c * perChunk + perChunk;
    }
  }

  lemma CeilDivUnique(n: nat, k: nat, c: nat)
    requires k > 0 && n <= c * k < n + k
    ensures c == (n + k - 1) / k
  {
    var q := (n + k - 1) / k;
    var r := (n + k - 1) % k;
    assert n + k - 1 == q * k + r && 0 <= r < k;
    assert (q + 1) * k == q * k + k;
    MulLessInv(c, q + 1, k);
    assert (q - 1) * k == q * k - k;
    MulLessInv(q - 1, c, k);
  }

  lemma MulLessInv(x: int, y: int, k: nat)
    requires k > 0 && x * k < y * k
    ensures x < y
  {
    if x >= y {
      MulMono(y, x, k);
    }
  }

  lemma MulMono(x: int, y: int, k: nat)
    requires x <= y
    ensures x * k <= y * k
  {
  }

  /** A device as seen by the GATT server. */
  datatype Device = Device(address: string)

  /** A response sent with `gattServer.sendResponse`. */
  datatype GattResponse = GattResponse(device: Device, requestId: int, status: int)

  /** A call from the native side into the Flutter method channel. */
  datatype UiEvent = ConnectionEstablished | ChallengeReceived(challenge: seq<byte>) | Subscribed

  /** What became of a send request. */
  datatype SendResult =
    | NotLinked   // no central or no characteristic yet: nothing is sent
    | Sent        // the loop ran to completion
    | Thrown      // an exception left the handler before anything was sent
    | Diverged    // the loop never ends (a chunk size of 0)

  class Peripheral {
    /** Negotiated ATT MTU. */
    var currentMtu: Int32
    /** The central that last connected or wrote. */
    var lastDevice: Option<Device>
    /** Whether the passkey characteristic has been built. */
    var pkcsChar: bool
    /** Whether the GATT server has been opened. */
    var gattServer: bool
    /** Value last written to the client configuration descriptor. */
    var cccdValue: seq<byte>
    /** The values of the notifications sent, in order. */
    var outbox: seq<seq<byte>>
    /** The responses sent to GATT requests, in order. */
    var responses: seq<GattResponse>
    /** The calls made into the Flutter method channel, in order. */
    var uiEvents: seq<UiEvent>

    /** `Base64.decode(_, NO_WRAP)`; `None` where it throws. */
    const base64Decode: string -> Option<seq<byte>>
    /** `String.toByteArray(Charsets.UTF_8)`. */
    const utf8Encode: string -> seq<byte>

    /** Every notification sent fits one attribute value and carries data. */
    ghost predicate Valid()
      reads this
    {
      forall i :: 0 <= i < |outbox| ==> 0 < |outbox[i]| <= MAX_ATTR_LEN
    }

    constructor (base64Decode: string -> Option<seq<byte>>, utf8Encode: string -> seq<byte>)
      ensures Valid()
      ensures currentMtu == DEFAULT_MTU && lastDevice == None && !pkcsChar && !gattServer
      ensures cccdValue == [] && outbox == [] && responses == [] && uiEvents == []
      ensures this.base64Decode == base64Decode && this.utf8Encode == utf8Encode
    {
      currentMtu := DEFAULT_MTU;
      lastDevice := None;
      pkcsChar := false;
      gattServer := false;
      cccdValue := [];
      outbox := [];
      responses := [];
      uiEvents := [];
      this.base64Decode := base64Decode;
      this.utf8Encode := utf8Encode;
    }

    /** Server start-up: without an advertiser nothing is built; otherwise the
        characteristic exists, and the server exists if the platform opened one. */
    method StartBleServer(hasAdvertiser: bool, serverOpened: bool)
      requires Valid()
      modifies this
      ensures Valid()
      ensures pkcsChar == (hasAdvertiser || old(pkcsChar))
      ensures gattServer == (if hasAdvertiser then serverOpened else old(gattServer))
      ensures currentMtu == old(currentMtu) && lastDevice == old(lastDevice)
      ensures cccdValue == old(cccdValue) && outbox == old(outbox)
      ensures responses == old(responses) && uiEvents == old(uiEvents)
    {
      if !hasAdvertiser {
        return;
      }
      pkcsChar := true;
      gattServer := serverOpened;
    }

    /** Sends `payload` to the last central as notifications of at most
        `PerChunk(currentMtu)` bytes each. */
    method Split(payload: seq<byte>) returns (r: SendResult)
      requires Valid()
      modifies this
      ensures Valid()
      ensures r == NotLinked <==> (old(lastDevice).None? || !old(pkcsChar))
      ensures r == Thrown <==> (r != NotLinked && |payload| > 0 && PerChunk(currentMtu) < 0)
      ensures r == Diverged <==> (r != NotLinked && |payload| > 0 && PerChunk(currentMtu) == 0)
      ensures r == Sent ==> |payload| == 0 || PerChunk(currentMtu) > 0
      ensures r == Sent && gattServer && |payload| > 0 ==>
        outbox == old(outbox) + Chunks(payload, PerChunk(currentMtu))
      ensures !(r == Sent && gattServer && |payload| > 0) ==> outbox == old(outbox)
      ensures currentMtu == old(currentMtu) && lastDevice == old(lastDevice)
      ensures pkcsChar == old(pkcsChar) && gattServer == old(gattServer) && cccdValue == old(cccdValue)
      ensures responses == old(responses) && uiEvents == old(uiEvents)
    {
      if lastDevice.None? || !pkcsChar {
        return NotLinked;
      }
      var perChunk := PerChunk(currentMtu);
      var size := |payload|;
      if size == 0 {
        return Sent;
      }
      if perChunk < 0 {
        // the first `copyOfRange(0, perChunk)` throws
        return Thrown;
      }
      if perChunk == 0 {
        // `offset` never advances
        return Diverged;
      }
      ChunksBounded(payload, perChunk);
      var offset := 0;
      while offset < size
        invariant 0 <= offset <= size
        invariant gattServer ==>
          old(outbox) + Chunks(payload, perChunk) == outbox + Chunks(payload[offset..], perChunk)
        invariant !gattServer ==> outbox == old(outbox)
        invariant Valid()
        invariant currentMtu == old(currentMtu) && lastDevice == old(lastDevice)
        invariant pkcsChar == old(pkcsChar) && gattServer == old(gattServer)
        invariant cccdValue == old(cccdValue) && responses == old(responses) && uiEvents == old(uiEvents)
        decreases size - offset
      {
        var end := Min(offset + perChunk, size);
        var chunk := payload[offset..end];
        ChunksBounded(payload[offset..], perChunk);
        assert Chunks(payload[offset..], perChunk)[0] == chunk;
        if end < size {
          assert payload[offset..][perChunk..] == payload[end..];
        }
        if gattServer {
          outbox := outbox + [chunk];
        }
        offset := end;
      }
      return Sent;
    }

    /** The Flutter `sendSignature` call: decode the base64 signature and send it. */
    method SendSignature(b64Sig: string) returns (r: SendResult)
      requires Valid()
      modifies this
      ensures Valid()
      ensures base64Decode(b64Sig).None? ==> r == Thrown && outbox == old(outbox)
      ensures base64Decode(b64Sig).Some? ==>
        && (r == NotLinked <==> (old(lastDevice).None? || !old(pkcsChar)))
        && (r == Thrown <==> (r != NotLinked && |base64Decode(b64Sig).value| > 0 && PerChunk(currentMtu) < 0))
        && (r == Diverged <==> (r != NotLinked && |base64Decode(b64Sig).value| > 0 && PerChunk(currentMtu) == 0))
      ensures base64Decode(b64Sig).Some? && r == Sent && gattServer && |base64Decode(b64Sig).value| > 0 ==>
        PerChunk(currentMtu) > 0 &&
        outbox == old(outbox) + Chunks(base64Decode(b64Sig).value, PerChunk(currentMtu))
      ensures base64Decode(b64Sig).Some? && !(r == Sent && gattServer && |base64Decode(b64Sig).value| > 0) ==>
        outbox == old(outbox)
      ensures currentMtu == old(currentMtu) && lastDevice == old(lastDevice)
      ensures pkcsChar == old(pkcsChar) && gattServer == old(gattServer) && cccdValue == old(cccdValue)
      ensures responses == old(responses) && uiEvents == old(uiEvents)
    {
      var sigBytes := base64Decode(b64Sig);
      if sigBytes.None? {
        return Thrown;
      }
      r := Split(sigBytes.value);
    }

    /** The Flutter `sendPublicKey` call: encode the JSON as UTF-8 and send it. */
    method SendPublicKey(json: string) returns (r: SendResult)
      requires Valid()
      modifies this
      ensures Valid()
      ensures r == NotLinked <==> (old(lastDevice).None? || !old(pkcsChar))
      ensures r == Thrown <==> (r != NotLinked && |utf8Encode(json)| > 0 && PerChunk(currentMtu) < 0)
      ensures r == Diverged <==> (r != NotLinked && |utf8Encode(json)| > 0 && PerChunk(currentMtu) == 0)
      ensures r == Sent && gattServer && |utf8Encode(json)| > 0 ==>
        PerChunk(currentMtu) > 0 && outbox == old(outbox) + Chunks(utf8Encode(json), PerChunk(currentMtu))
      ensures !(r == Sent && gattServer && |utf8Encode(json)| > 0) ==> outbox == old(outbox)
      ensures currentMtu == old(currentMtu) && lastDevice == old(lastDevice)
      ensures pkcsChar == old(pkcsChar) && gattServer == old(gattServer) && cccdValue == old(cccdValue)
      ensures responses == old(responses) && uiEvents == old(uiEvents)
    {
      r := Split(utf8Encode(json));
    }

    /** A connection-state change: a connect records the central; any other
        state (a disconnect included) changes nothing. */
    method OnConnectionStateChange(device: Device, status: int, newState: int)
      requires Valid()
      modifies this
      ensures Valid()
      ensures newState == STATE_CONNECTED ==>
        lastDevice == Some(device) && uiEvents == old(uiEvents) + [ConnectionEstablished]
      ensures newState != STATE_CONNECTED ==>
        lastDevice == old(lastDevice) && uiEvents == old(uiEvents)
      ensures currentMtu == old(currentMtu) && pkcsChar == old(pkcsChar) && gattServer == old(gattServer)
      ensures cccdValue == old(cccdValue) && outbox == old(outbox) && responses == old(responses)
    {
      if newState == STATE_CONNECTED {
        lastDevice := Some(device);
        uiEvents := uiEvents + [ConnectionEstablished];
      }
    }

    /** The MTU exchange: later sends use the new value. */
    method OnMtuChanged(device: Device, mtu: Int32)
      requires Valid()
      modifies this
      ensures Valid()
      ensures currentMtu == mtu
      ensures lastDevice == old(lastDevice) && pkcsChar == old(pkcsChar) && gattServer == old(gattServer)
      ensures cccdValue == old(cccdValue) && outbox == old(outbox)
      ensures responses == old(responses) && uiEvents == old(uiEvents)
    {
      currentMtu := mtu;
    }

    /** A write to the passkey characteristic (the challenge): always answered
        with success, whatever its length, and forwarded to Flutter. */
    method OnCharacteristicWriteRequest(device: Device, requestId: int, value: seq<byte>)
      requires Valid()
      modifies this
      ensures Valid()
      ensures responses == old(responses) +
        (if gattServer then [GattResponse(device, requestId, GATT_SUCCESS)] else [])
      ensures lastDevice == Some(device)
      ensures uiEvents == old(uiEvents) + [ChallengeReceived(value)]
      ensures currentMtu == old(currentMtu) && pkcsChar == old(pkcsChar) && gattServer == old(gattServer)
      ensures cccdValue == old(cccdValue) && outbox == old(outbox)
    {
      if gattServer {
        responses := responses + [GattResponse(device, requestId, GATT_SUCCESS)];
      }
      lastDevice := Some(device);
      uiEvents := uiEvents + [ChallengeReceived(value)];
    }

    /** A descriptor write: accepted and stored only for the client
        configuration descriptor, refused for any other descriptor. */
    method OnDescriptorWriteRequest(device: Device, requestId: int, descriptor: Uuid, value: seq<byte>)
      requires Valid()
      modifies this
      ensures Valid()
      ensures descriptor == CCCD_UUID ==>
        && cccdValue == value
        && responses == old(responses) +
             (if gattServer then [GattResponse(device, requestId, GATT_SUCCESS)] else [])
        && uiEvents == old(uiEvents) + [Subscribed]
      ensures descriptor != CCCD_UUID ==>
        && cccdValue == old(cccdValue)
        && responses == old(responses) +
             (if gattServer then [GattResponse(device, requestId, GATT_FAILURE)] else [])
        && uiEvents == old(uiEvents)
      ensures currentMtu == old(currentMtu) && lastDevice == old(lastDevice)
      ensures pkcsChar == old(pkcsChar) && gattServer == old(gattServer) && outbox == old(outbox)
    {
      if descriptor == CCCD_UUID {
        cccdValue := value;
        if gattServer {
          responses := responses + [GattResponse(device, requestId, GATT_SUCCESS)];
        }
        uiEvents := uiEvents + [Subscribed];
      } else if gattServer {
        responses := responses + [GattResponse(device, requestId, GATT_FAILURE)];
      }
    }
  }
}
