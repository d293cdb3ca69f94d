/** The two halves together: frames the holder emits are delivered, in order,
    to the verifier's notification handler. */
module Handshake {
  import opened Wrappers
  import opened Frames
  import opened Holder
  import opened Verifier

  /** A signature of exactly the expected size, split at any positive chunk
      size, reaches the expected size on its last frame and on no earlier one,
      and the frames concatenate to the signature. */
  lemma ExactSignatureCompletesOnLastFrame(sig: seq<byte>, perChunk: nat)
    requires perChunk > 0 && |sig| == EXPECTED_SIG_BYTES
    ensures |Chunks(sig, perChunk)| > 0
    ensures forall i :: 0 <= i < |Chunks(sig, perChunk)| ==>
      TotalLength(Chunks(sig, perChunk)[..i]) < EXPECTED_SIG_BYTES
    ensures TotalLength(Chunks(sig, perChunk)) == EXPECTED_SIG_BYTES
    ensures Flatten(Chunks(sig, perChunk)) == sig
  {
    var cs := Chunks(sig, perChunk);
    ChunksFlatten(sig, perChunk);
    ChunksBounded(sig, perChunk);
    ChunksCount(sig, perChunk);
    TotalLengthIsFlattenLength(cs);
    forall i | 0 <= i < |cs|
      ensures TotalLength(cs[..i]) < EXPECTED_SIG_BYTES
    {
      PrefixBelowTotal(cs, i);
    }
  }

  /** The holder sends a signature of the expected size and the verifier,
      already holding the key and no partial signature, receives each frame:
      exactly one verification happens, on exactly the bytes that were sent,
      and the verifier's buffers end empty. */
  method DeliverSignature(holder: Peripheral, central: Central, sig: seq<byte>)
    requires holder.Valid() && central.Valid()
    requires holder.lastDevice.Some? && holder.pkcsChar && holder.gattServer
    requires PerChunk(holder.currentMtu) > 0
    requires central.publicKeyLoaded && central.sigChunks == []
    requires |sig| == EXPECTED_SIG_BYTES
    modifies holder, central
    ensures holder.Valid() && central.Valid()
    ensures holder.currentMtu == old(holder.currentMtu) && holder.uiEvents == old(holder.uiEvents)
    ensures central.publicKeyLoaded && central.writes == old(central.writes)
    ensures holder.outbox == old(holder.outbox) + Chunks(sig, PerChunk(holder.currentMtu))
    ensures central.verifyLog == old(central.verifyLog) +
      [VerifyCall(central.publicKey.value, ChallengeBytes(central.challengeBuf), sig)]
    ensures central.status ==
      VerdictStatus(central.mlDsaVerify(central.publicKey.value, ChallengeBytes(central.challengeBuf), sig))
    ensures central.sigChunks == [] && central.receivedSigLen == 0
    ensures central.publicKey == old(central.publicKey) && central.challengeBuf == old(central.challengeBuf)
  {
    var start := |holder.outbox|;
    var r := holder.Split(sig);
    var frames := holder.outbox[start..];
    ExactSignatureCompletesOnLastFrame(sig, PerChunk(holder.currentMtu));
    assert frames == Chunks(sig, PerChunk(holder.currentMtu));
    var key := central.publicKey.value;
    var message := ChallengeBytes(central.challengeBuf);
    var i := 0;
    while i < |frames|
      modifies central
      invariant 0 <= i <= |frames|
      invariant central.Valid() && central.publicKeyLoaded
      invariant central.publicKey == old(central.publicKey) && central.challengeBuf == old(central.challengeBuf)
      invariant central.writes == old(central.writes)
      invariant i < |frames| ==> central.sigChunks == frames[..i] && central.verifyLog == old(central.verifyLog)
      invariant i == |frames| ==>
        && central.sigChunks == []
        && central.verifyLog == old(central.verifyLog) + [VerifyCall(key, message, sig)]
        && central.status == VerdictStatus(central.mlDsaVerify(key, message, sig))
    {
      assert frames[..i + 1] == frames[..i] + [frames[i]];
      assert (frames[..i] + [frames[i]])[..i] == frames[..i];
      central.HandleNotification(frames[i]);
      if i + 1 == |frames| {
        assert frames[..i + 1] == frames;
      }
      i := i + 1;
    }
  }

  /** The key JSON frames reach the notification handler one by one (the
      handler as attached when `asAttached`, the intended one otherwise; the two
      agree until the key is loaded): the key is loaded after the last frame,
      from the whole accumulated text. */
  method DeliverKey(central: Central, frames: seq<seq<byte>>, asAttached: bool)
    requires central.Valid() && !central.publicKeyLoaded && central.pubKeyAccum == ""
    requires KeyCompletesAtEnd(central.textDecode, central.parseSigPub, frames)
    modifies central
    ensures central.Valid() && central.publicKeyLoaded && central.status == KeyImported
    ensures central.publicKey == central.parseSigPub(KeyText(central.textDecode, frames))
    ensures central.sigChunks == [] && central.verifyLog == old(central.verifyLog)
    ensures central.challengeBuf == old(central.challengeBuf) && central.charac == old(central.charac)
    ensures central.listenerKeyLoaded == old(central.listenerKeyLoaded) && central.writes == old(central.writes)
  {
    var i := 0;
    while i < |frames|
      invariant 0 <= i <= |frames|
      invariant central.Valid()
      invariant central.pubKeyAccum == KeyText(central.textDecode, frames[..i])
      invariant i < |frames| ==> !central.publicKeyLoaded
      invariant i == |frames| ==>
        && central.publicKeyLoaded && central.status == KeyImported
        && central.publicKey == central.parseSigPub(KeyText(central.textDecode, frames))
      invariant central.sigChunks == [] && central.verifyLog == old(central.verifyLog)
      invariant central.challengeBuf == old(central.challengeBuf) && central.charac == old(central.charac)
      invariant central.listenerKeyLoaded == old(central.listenerKeyLoaded)
      invariant central.writes == old(central.writes)
    {
      assert frames[..i + 1][..i] == frames[..i];
      if asAttached {
        central.HandleNotificationAsAttached(frames[i]);
      } else {
        central.HandleNotification(frames[i]);
      }
      if i + 1 == |frames| {
        assert frames[..i + 1] == frames;
      }
      i := i + 1;
    }
    assert frames[..|frames|] == frames;
  }

  /** Frames reach the handler as attached, by a listener attached before the
      key was loaded: nothing is collected as signature and nothing is verified. */
  method DeliverAsAttached(central: Central, frames: seq<seq<byte>>)
    requires central.Valid() && !central.listenerKeyLoaded
    modifies central
    ensures central.Valid() && !central.listenerKeyLoaded
    ensures central.sigChunks == old(central.sigChunks) && central.verifyLog == old(central.verifyLog)
    ensures old(central.publicKeyLoaded) ==> central.publicKeyLoaded
    ensures central.status == old(central.status) || central.status == KeyImported
  {
    for i := 0 to |frames|
      invariant central.Valid() && !central.listenerKeyLoaded
      invariant central.sigChunks == old(central.sigChunks) && central.verifyLog == old(central.verifyLog)
      invariant old(central.publicKeyLoaded) ==> central.publicKeyLoaded
      invariant central.status == old(central.status) || central.status == KeyImported
    {
      central.HandleNotificationAsAttached(frames[i]);
    }
  }

  /** A whole session with the intended handler. The holder starts its server,
      the central connects, negotiates `mtu` and subscribes; the holder sends
      the key JSON, the central issues the challenge `random`, the holder
      forwards it to the signer and sends back `sig`. Exactly one verification
      happens, with the imported key, over the challenge, on `sig`. */
  method IntendedScenario(base64Decode: string -> Option<seq<byte>>, utf8Encode: string -> seq<byte>,
                          textDecode: seq<byte> -> string, parseSigPub: string -> Option<seq<byte>>,
                          mlDsaVerify: (seq<byte>, seq<byte>, seq<byte>) -> VerifyOutcome,
                          centralDevice: Device, mtu: Int32, keyJson: string, random: seq<byte>, sig: seq<byte>)
    returns (log: seq<VerifyCall>, status: Status, holderEvents: seq<UiEvent>)
    requires PerChunk(mtu) > 0
    requires KeyCompletesAtEnd(textDecode, parseSigPub, Chunks(utf8Encode(keyJson), PerChunk(mtu)))
    requires |random| == CHALLENGE_BYTES && |sig| == EXPECTED_SIG_BYTES
    ensures var key := parseSigPub(KeyText(textDecode, Chunks(utf8Encode(keyJson), PerChunk(mtu)))).value;
      && log == [VerifyCall(key, random, sig)]
      && status == VerdictStatus(mlDsaVerify(key, random, sig))
    ensures holderEvents == [ConnectionEstablished, Subscribed, ChallengeReceived(random)]
  {
    var holder, central := Connect(base64Decode, utf8Encode, textDecode, parseSigPub, mlDsaVerify, centralDevice, mtu);
    SendKey(holder, central, keyJson, false);
    var issued := SendChallenge(holder, central, centralDevice, random);
    DeliverSignature(holder, central, sig);
    log, status, holderEvents := central.verifyLog, central.status, holder.uiEvents;
  }

  /** The same session with the handler as attached: the key is still
      imported and the challenge written, but the signature frames go to the
      JSON accumulator, so verification never happens. */
  method AsAttachedScenario(base64Decode: string -> Option<seq<byte>>, utf8Encode: string -> seq<byte>,
                            textDecode: seq<byte> -> string, parseSigPub: string -> Option<seq<byte>>,
                            mlDsaVerify: (seq<byte>, seq<byte>, seq<byte>) -> VerifyOutcome,
                            centralDevice: Device, mtu: Int32, keyJson: string, random: seq<byte>, sig: seq<byte>)
    returns (log: seq<VerifyCall>, status: Status, challengeWritten: bool)
    requires PerChunk(mtu) > 0
    requires KeyCompletesAtEnd(textDecode, parseSigPub, Chunks(utf8Encode(keyJson), PerChunk(mtu)))
    requires |random| == CHALLENGE_BYTES && |sig| == EXPECTED_SIG_BYTES
    ensures challengeWritten
    ensures log == []
    ensures status == WritingChallenge(CHALLENGE_BYTES) || status == KeyImported
  {
    var holder, central := Connect(base64Decode, utf8Encode, textDecode, parseSigPub, mlDsaVerify, centralDevice, mtu);
    SendKey(holder, central, keyJson, true);
    var issued := SendChallenge(holder, central, centralDevice, random);
    challengeWritten := issued == Written;
    var start := |holder.outbox|;
    var sent := holder.Split(sig);
    DeliverAsAttached(central, holder.outbox[start..]);
    log, status := central.verifyLog, central.status;
  }

  /** Session set-up: the holder's server is up, the central has connected,
      the MTU is `mtu`, and the central has subscribed. */
  method Connect(base64Decode: string -> Option<seq<byte>>, utf8Encode: string -> seq<byte>,
                 textDecode: seq<byte> -> string, parseSigPub: string -> Option<seq<byte>>,
                 mlDsaVerify: (seq<byte>, seq<byte>, seq<byte>) -> VerifyOutcome,
                 centralDevice: Device, mtu: Int32)
    returns (holder: Peripheral, central: Central)
    ensures fresh(holder) && fresh(central)
    ensures holder.Valid() && central.Valid()
    ensures holder.lastDevice == Some(centralDevice) && holder.pkcsChar && holder.gattServer
    ensures holder.currentMtu == mtu && holder.outbox == [] && holder.uiEvents == [ConnectionEstablished, Subscribed]
    ensures holder.base64Decode == base64Decode && holder.utf8Encode == utf8Encode
    ensures central.charac && !central.publicKeyLoaded && !central.listenerKeyLoaded
    ensures central.pubKeyAccum == "" && central.sigChunks == [] && central.verifyLog == [] && central.writes == []
    ensures central.textDecode == textDecode && central.parseSigPub == parseSigPub
    ensures central.mlDsaVerify == mlDsaVerify
  {
    holder := new Peripheral(base64Decode, utf8Encode);
    holder.StartBleServer(true, true);
    central := new Central(textDecode, parseSigPub, mlDsaVerify);
    holder.OnConnectionStateChange(centralDevice, 0, STATE_CONNECTED);
    holder.OnMtuChanged(centralDevice, mtu);
    holder.OnDescriptorWriteRequest(centralDevice, 1, CCCD_UUID, [1, 0]);
    central.Subscribed();
  }

  /** The holder sends the key JSON as its first notifications and the central
      receives them (through the handler as attached when `asAttached`). */
  method SendKey(holder: Peripheral, central: Central, keyJson: string, asAttached: bool)
    requires holder.Valid() && central.Valid()
    requires holder.lastDevice.Some? && holder.pkcsChar && holder.gattServer && holder.outbox == []
    requires PerChunk(holder.currentMtu) > 0
    requires !central.publicKeyLoaded && !central.listenerKeyLoaded && central.pubKeyAccum == ""
    requires KeyCompletesAtEnd(central.textDecode, central.parseSigPub,
                               Chunks(holder.utf8Encode(keyJson), PerChunk(holder.currentMtu)))
    modifies holder, central
    ensures holder.Valid() && central.Valid()
    ensures holder.lastDevice == old(holder.lastDevice) && holder.pkcsChar && holder.gattServer
    ensures holder.currentMtu == old(holder.currentMtu) && holder.uiEvents == old(holder.uiEvents)
    ensures central.publicKeyLoaded && !central.listenerKeyLoaded && central.status == KeyImported
    ensures central.publicKey == central.parseSigPub(KeyText(central.textDecode,
                                   Chunks(holder.utf8Encode(keyJson), PerChunk(holder.currentMtu))))
    ensures central.sigChunks == [] && central.verifyLog == old(central.verifyLog)
    ensures central.charac == old(central.charac) && central.writes == old(central.writes)
  {
    var frames := Chunks(holder.utf8Encode(keyJson), PerChunk(holder.currentMtu));
    ChunksCount(holder.utf8Encode(keyJson), PerChunk(holder.currentMtu));
    var sent := holder.SendPublicKey(keyJson);
    assert holder.outbox == frames;
    DeliverKey(central, holder.outbox, asAttached);
  }

  /** The central issues the challenge `random` and the holder receives the write. */
  method SendChallenge(holder: Peripheral, central: Central, centralDevice: Device, random: seq<byte>)
    returns (issued: ChallengeOutcome)
    requires holder.Valid() && central.Valid()
    requires central.charac && central.publicKeyLoaded
    requires |random| == CHALLENGE_BYTES
    modifies holder, central
    ensures holder.Valid() && central.Valid()
    ensures issued == Written
    ensures central.challengeBuf == Some(random) && central.writes == old(central.writes) + [random]
    ensures holder.uiEvents == old(holder.uiEvents) + [ChallengeReceived(random)]
    ensures holder.lastDevice == Some(centralDevice)
    ensures holder.pkcsChar == old(holder.pkcsChar) && holder.gattServer == old(holder.gattServer)
    ensures holder.currentMtu == old(holder.currentMtu) && holder.outbox == old(holder.outbox)
    ensures central.publicKeyLoaded && central.publicKey == old(central.publicKey)
    ensures central.listenerKeyLoaded == old(central.listenerKeyLoaded)
    ensures central.sigChunks == old(central.sigChunks) && central.verifyLog == old(central.verifyLog)
    ensures central.status == WritingChallenge(CHALLENGE_BYTES)
  {
    issued := central.SendChallengeAndReply(random);
    holder.OnCharacteristicWriteRequest(centralDevice, 2, central.writes[|central.writes| - 1]);
  }
}
