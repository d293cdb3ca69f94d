/** The verifier: the browser page of `App.jsx`, a Web Bluetooth central. Once
    subscribed it first accumulates the holder's public-key JSON, then issues a
    16-byte challenge, collects the ML-DSA-44 signature from notifications until
    it has the signature's fixed size, reassembles it and verifies it. */
module Verifier {
  import opened Wrappers
  import opened Frames

  /** ML-DSA-44 signature size in bytes (FIPS 204, Table 2); the page reads it
      as `ml_dsa44.SIG_BYTES` from its library, taken here to be this value. */
  const EXPECTED_SIG_BYTES := 2420
  /** Challenge length; the ML-DSA wrapper also verifies over exactly this many message bytes. */
  const CHALLENGE_BYTES := 16

  /** The page's status line. */
  datatype Status =
    | Idle
    | WaitingForKey
    | NoPublicKeyYet
    | KeyImported
    | WritingChallenge(length: nat)
    | Receiving(received: nat)
    | SignatureValid
    | SignatureInvalid
    | VerificationError

  /** What `ml_dsa44.verify` does: return a verdict or throw. */
  datatype VerifyOutcome = Returned(valid: bool) | Raised

  /** One call of `ml_dsa44.verify`, with its arguments. */
  datatype VerifyCall = VerifyCall(publicKey: seq<byte>, message: seq<byte>, signature: seq<byte>)

  /** How `sendChallengeAndReply` ended. */
  datatype ChallengeOutcome = NotConnected | NoPublicKey | Written

  /** The status the page shows for a verification outcome: each outcome has its own. */
  function VerdictStatus(o: VerifyOutcome): (s: Status)
    ensures s == SignatureValid <==> o == Returned(true)
    ensures s == SignatureInvalid <==> o == Returned(false)
    ensures s == VerificationError <==> o == Raised
  {
    match o
    case Returned(valid) => if valid then SignatureValid else SignatureInvalid
    case Raised => VerificationError
  }

  /** `new Uint8Array(challengeBufRef.current)`: the stored challenge, or no
      bytes at all when none has been issued. */
  function ChallengeBytes(buf: Option<seq<byte>>): seq<byte>
  {
    if buf.Some? then buf.value else []
  }

  /** Reassembly of the signature: a buffer of `total` bytes into which each
      chunk is copied at a moving offset. The result is the chunks' in-order
      concatenation, exactly `total` bytes long. */
  method Reassemble(chunks: seq<seq<byte>>, total: nat) returns (fullSig: seq<byte>)
    requires total == TotalLength(chunks)
    ensures fullSig == Flatten(chunks)
    ensures |fullSig| == total
  {
    var buf := new byte[total];
    var off := 0;
    for i := 0 to |chunks|
      invariant off == TotalLength(chunks[..i]) <= total
      invariant buf[..off] == Flatten(chunks[..i])
    {
      var chunk := chunks[i];
      PrefixWithin(chunks, i);
      for j := 0 to |chunk|
        invariant buf[..off + j] == Flatten(chunks[..i]) + chunk[..j]
      {
        buf[off + j] := chunk[j];
      }
      assert chunks[..i + 1][..i] == chunks[..i];
      assert chunk[..|chunk|] == chunk;
      off := off + |chunk|;
    }
    assert chunks[..|chunks|] == chunks;
    TotalLengthIsFlattenLength(chunks);
    fullSig := buf[..];
  }

  /** The text the JSON accumulator holds after `frames`, each decoded on its own. */
  function KeyText(textDecode: seq<byte> -> string, frames: seq<seq<byte>>): string
  {
    if frames == [] then ""
    else KeyText(textDecode, frames[..|frames| - 1]) + textDecode(frames[|frames| - 1])
  }

  /** Accumulating two runs of frames one after the other yields the text of
      the first run followed by the text of the second. */
  lemma {:induction false} KeyTextConcat(textDecode: seq<byte> -> string, a: seq<seq<byte>>, b: seq<seq<byte>>)
    ensures KeyText(textDecode, a + b) == KeyText(textDecode, a) + KeyText(textDecode, b)
    decreases |b|
  {
    if b == [] {
      assert a + b == a;
    } else {
      assert (a + b)[..|a + b| - 1] == a + b[..|b| - 1];
      KeyTextConcat(textDecode, a, b[..|b| - 1]);
    }
  }

  /** The key JSON parses after the last of `frames` and after no earlier one. */
  predicate KeyCompletesAtEnd(textDecode: seq<byte> -> string, parseSigPub: string -> Option<seq<byte>>,
                              frames: seq<seq<byte>>)
  {
    && frames != []
    && parseSigPub(KeyText(textDecode, frames)).Some?
    && forall i :: 0 < i < |frames| ==> parseSigPub(KeyText(textDecode, frames[..i])).None?
  }

  class Central {
    /** Whether the characteristic handle has been obtained. */
    var charac: bool
    var status: Status
    var publicKeyLoaded: bool
    var publicKey: Option<seq<byte>>
    var challengeBuf: Option<seq<byte>>
    /** Text of the key JSON received so far. */
    var pubKeyAccum: string
    var sigChunks: seq<seq<byte>>
    var receivedSigLen: nat
    /** `publicKeyLoaded` as it was when the notification listener was attached. */
    var listenerKeyLoaded: bool
    /** The values written to the characteristic, in order. */
    var writes: seq<seq<byte>>
    /** The calls of `ml_dsa44.verify`, in order. */
    var verifyLog: seq<VerifyCall>

    /** `TextDecoder.decode`. */
    const textDecode: seq<byte> -> string
    /** `JSON.parse` of the text, the `sigPub` field, `atob` and byte conversion;
        `None` where any of them throws. */
    const parseSigPub: string -> Option<seq<byte>>
    /** `ml_dsa44.verify(publicKey, message, signature)`. */
    const mlDsaVerify: (seq<byte>, seq<byte>, seq<byte>) -> VerifyOutcome

    /** The counter is the size of the collected chunks and stays below the
        signature size; nothing is collected before the key is loaded; a loaded
        key is stored. */
    ghost predicate Valid()
      reads this
    {
      && receivedSigLen == TotalLength(sigChunks)
      && receivedSigLen < EXPECTED_SIG_BYTES
      && (publicKeyLoaded ==> publicKey.Some?)
      && (!publicKeyLoaded ==> sigChunks == [])
      && (listenerKeyLoaded ==> publicKeyLoaded)
    }

    constructor (textDecode: seq<byte> -> string,
                 parseSigPub: string -> Option<seq<byte>>,
                 mlDsaVerify: (seq<byte>, seq<byte>, seq<byte>) -> VerifyOutcome)
      ensures Valid()
      ensures !charac && status == Idle && !publicKeyLoaded && publicKey == None
      ensures challengeBuf == None && pubKeyAccum == "" && sigChunks == [] && receivedSigLen == 0
      ensures !listenerKeyLoaded && writes == [] && verifyLog == []
      ensures this.textDecode == textDecode && this.parseSigPub == parseSigPub
      ensures this.mlDsaVerify == mlDsaVerify
    {
      charac := false;
      status := Idle;
      publicKeyLoaded := false;
      publicKey := None;
      challengeBuf := None;
      pubKeyAccum := "";
      sigChunks := [];
      receivedSigLen := 0;
      listenerKeyLoaded := false;
      writes := [];
      verifyLog := [];
      this.textDecode := textDecode;
      this.parseSigPub := parseSigPub;
      this.mlDsaVerify := mlDsaVerify;
    }

    /** The end of `connectToPhone`: the listener is attached (capturing the
        current `publicKeyLoaded`), the characteristic stored, and the page
        waits for the key. The page is taken to connect once, so there is a
        single listener. */
    method Subscribed()
      requires Valid()
      modifies this
      ensures Valid()
      ensures charac && status == WaitingForKey && listenerKeyLoaded == publicKeyLoaded
      ensures publicKeyLoaded == old(publicKeyLoaded) && publicKey == old(publicKey)
      ensures challengeBuf == old(challengeBuf) && pubKeyAccum == old(pubKeyAccum)
      ensures sigChunks == old(sigChunks) && receivedSigLen == old(receivedSigLen)
      ensures writes == old(writes) && verifyLog == old(verifyLog)
    {
      listenerKeyLoaded := publicKeyLoaded;
      charac := true;
      status := WaitingForKey;
    }

    /** Issues a challenge: refused when not connected or when no key is
        loaded; otherwise `random`, the 16 bytes drawn from the platform's
        generator, becomes the stored challenge (replacing any earlier one) and
        is written to the characteristic. */
    method SendChallengeAndReply(random: seq<byte>) returns (outcome: ChallengeOutcome)
      requires Valid()
      requires |random| == CHALLENGE_BYTES
      modifies this
      ensures Valid()
      ensures outcome == NotConnected <==> !charac
      ensures outcome == NoPublicKey <==> charac && !publicKeyLoaded
      ensures outcome != Written ==> challengeBuf == old(challengeBuf) && writes == old(writes)
      ensures outcome == NotConnected ==> status == old(status)
      ensures outcome == NoPublicKey ==> status == NoPublicKeyYet
      ensures outcome == Written ==>
        && challengeBuf == Some(random) && |challengeBuf.value| == CHALLENGE_BYTES
        && writes == old(writes) + [random]
        && status == WritingChallenge(CHALLENGE_BYTES)
      ensures charac == old(charac) && publicKeyLoaded == old(publicKeyLoaded)
      ensures publicKey == old(publicKey) && pubKeyAccum == old(pubKeyAccum)
      ensures sigChunks == old(sigChunks) && receivedSigLen == old(receivedSigLen)
      ensures listenerKeyLoaded == old(listenerKeyLoaded) && verifyLog == old(verifyLog)
    {
      if !charac {
        return NotConnected;
      }
      if !publicKeyLoaded {
        status := NoPublicKeyYet;
        return NoPublicKey;
      }
      challengeBuf := Some(random);
      status := WritingChallenge(|random|);
      writes := writes + [random];
      return Written;
    }

    /** Phase 1: the notification's text is appended to the JSON accumulator;
        the key becomes loaded exactly when the whole accumulated text parses
        and yields `sigPub`. The signature buffers are not touched. */
    method AccumulateKey(bytes: seq<byte>)
      requires Valid()
      modifies this
      ensures Valid()
      ensures pubKeyAccum == old(pubKeyAccum) + textDecode(bytes)
      ensures parseSigPub(pubKeyAccum).Some? ==>
        publicKeyLoaded && publicKey == parseSigPub(pubKeyAccum) && status == KeyImported
      ensures parseSigPub(pubKeyAccum).None? ==>
        publicKeyLoaded == old(publicKeyLoaded) && publicKey == old(publicKey) && status == old(status)
      ensures sigChunks == old(sigChunks) && receivedSigLen == old(receivedSigLen)
      ensures verifyLog == old(verifyLog) && challengeBuf == old(challengeBuf)
      ensures charac == old(charac) && listenerKeyLoaded == old(listenerKeyLoaded) && writes == old(writes)
    {
      pubKeyAccum := pubKeyAccum + textDecode(bytes);
      var parsed := parseSigPub(pubKeyAccum);
      if parsed.Some? {
        publicKey := parsed;
        publicKeyLoaded := true;
        status := KeyImported;
      }
    }

    /** Phase 2: the notification is appended to the signature chunks. Below
        the signature size, nothing else happens. Once the size is reached the
        chunks are reassembled in order, the buffers are reset, and the
        signature is verified over the stored challenge with the stored key. */
    method CollectSignature(bytes: seq<byte>)
      requires Valid() && publicKeyLoaded
      modifies this
      ensures Valid()
      ensures publicKeyLoaded && publicKey == old(publicKey) && pubKeyAccum == old(pubKeyAccum)
      ensures old(receivedSigLen) + |bytes| < EXPECTED_SIG_BYTES ==>
        && sigChunks == old(sigChunks) + [bytes]
        && receivedSigLen == old(receivedSigLen) + |bytes|
        && verifyLog == old(verifyLog)
        && status == Receiving(receivedSigLen)
      ensures old(receivedSigLen) + |bytes| >= EXPECTED_SIG_BYTES ==>
        var fullSig := Flatten(old(sigChunks) + [bytes]);
        && |fullSig| == old(receivedSigLen) + |bytes|
        && sigChunks == [] && receivedSigLen == 0
        && verifyLog == old(verifyLog) + [VerifyCall(publicKey.value, ChallengeBytes(challengeBuf), fullSig)]
        && status == VerdictStatus(mlDsaVerify(publicKey.value, ChallengeBytes(challengeBuf), fullSig))
      ensures challengeBuf == old(challengeBuf) && charac == old(charac)
      ensures listenerKeyLoaded == old(listenerKeyLoaded) && writes == old(writes)
    {
      assert (sigChunks + [bytes])[..|sigChunks|] == sigChunks;
      sigChunks := sigChunks + [bytes];
      receivedSigLen := receivedSigLen + |bytes|;
      if receivedSigLen < EXPECTED_SIG_BYTES {
        status := Receiving(receivedSigLen);
        return;
      }
      var fullSig := Reassemble(sigChunks, receivedSigLen);
      sigChunks := [];
      receivedSigLen := 0;
      var key := publicKey.value;
      var message := ChallengeBytes(challengeBuf);
      var outcome := mlDsaVerify(key, message, fullSig);
      verifyLog := verifyLog + [VerifyCall(key, message, fullSig)];
      status := VerdictStatus(outcome);
    }

    /** The notification handler, with its phase decided by the current
        `publicKeyLoaded` (the handler's evident intent). */
    method HandleNotification(bytes: seq<byte>)
      requires Valid()
      modifies this
      ensures Valid()
      ensures !old(publicKeyLoaded) ==>
        && pubKeyAccum == old(pubKeyAccum) + textDecode(bytes)
        && (publicKeyLoaded <==> parseSigPub(pubKeyAccum).Some?)
        && (publicKeyLoaded ==> publicKey == parseSigPub(pubKeyAccum) && status == KeyImported)
        && (!publicKeyLoaded ==> publicKey == old(publicKey) && status == old(status))
        && sigChunks == old(sigChunks) && receivedSigLen == old(receivedSigLen)
        && verifyLog == old(verifyLog)
      ensures old(publicKeyLoaded) ==>
        && publicKeyLoaded && publicKey == old(publicKey) && pubKeyAccum == old(pubKeyAccum)
        && (old(receivedSigLen) + |bytes| < EXPECTED_SIG_BYTES ==>
              && sigChunks == old(sigChunks) + [bytes]
              && receivedSigLen == old(receivedSigLen) + |bytes|
              && verifyLog == old(verifyLog)
              && status == Receiving(receivedSigLen))
        && (old(receivedSigLen) + |bytes| >= EXPECTED_SIG_BYTES ==>
              var fullSig := Flatten(old(sigChunks) + [bytes]);
              && |fullSig| == old(receivedSigLen) + |bytes|
              && sigChunks == [] && receivedSigLen == 0
              && verifyLog == old(verifyLog) + [VerifyCall(publicKey.value, ChallengeBytes(challengeBuf), fullSig)]
              && status == VerdictStatus(mlDsaVerify(publicKey.value, ChallengeBytes(challengeBuf), fullSig)))
      ensures challengeBuf == old(challengeBuf) && charac == old(charac)
      ensures listenerKeyLoaded == old(listenerKeyLoaded) && writes == old(writes)
    {
      if !publicKeyLoaded {
        AccumulateKey(bytes);
        return;
      }
      CollectSignature(bytes);
    }

    /** The notification handler as attached: its phase test reads the value
        `publicKeyLoaded` had when the listener was attached. Attached before
        the key arrived, it keeps every notification in phase 1: no signature
        chunk is ever collected and verification is never called. */
    method HandleNotificationAsAttached(bytes: seq<byte>)
      requires Valid()
      modifies this
      ensures Valid()
      ensures !listenerKeyLoaded ==>
        && pubKeyAccum == old(pubKeyAccum) + textDecode(bytes)
        && (parseSigPub(pubKeyAccum).Some? ==>
              publicKeyLoaded && publicKey == parseSigPub(pubKeyAccum) && status == KeyImported)
        && (parseSigPub(pubKeyAccum).None? ==>
              publicKeyLoaded == old(publicKeyLoaded) && publicKey == old(publicKey) && status == old(status))
        && sigChunks == old(sigChunks) && receivedSigLen == old(receivedSigLen)
        && verifyLog == old(verifyLog)
      ensures listenerKeyLoaded ==>
        && publicKeyLoaded && publicKey == old(publicKey) && pubKeyAccum == old(pubKeyAccum)
        && (old(receivedSigLen) + |bytes| < EXPECTED_SIG_BYTES ==>
              && sigChunks == old(sigChunks) + [bytes]
              && receivedSigLen == old(receivedSigLen) + |bytes|
              && verifyLog == old(verifyLog)
              && status == Receiving(receivedSigLen))
        && (old(receivedSigLen) + |bytes| >= EXPECTED_SIG_BYTES ==>
              var fullSig := Flatten(old(sigChunks) + [bytes]);
              && |fullSig| == old(receivedSigLen) + |bytes|
              && sigChunks == [] && receivedSigLen == 0
              && verifyLog == old(verifyLog) + [VerifyCall(publicKey.value, ChallengeBytes(challengeBuf), fullSig)]
              && status == VerdictStatus(mlDsaVerify(publicKey.value, ChallengeBytes(challengeBuf), fullSig)))
      ensures challengeBuf == old(challengeBuf) && charac == old(charac)
      ensures listenerKeyLoaded == old(listenerKeyLoaded) && writes == old(writes)
    {
      if !listenerKeyLoaded {
        AccumulateKey(bytes);
        return;
      }
      CollectSignature(bytes);
    }
  }
}
