/** The ratchet over a session store that hands out its own key map.

    The in-memory store copies a session but not its map of skipped keys. A decryption that fails
    after walking the chain therefore leaves the keys of the gap behind, although the session itself
    is not saved. What every run keeps is that stored keys are right, that only messages that were
    sent open, and that messages within reach are delivered. The exact set of stored keys and single
    acceptance are had exactly as long as no failing decryption leaves keys behind.
 */
module RatchetShared {
  import opened Text
  import opened Ratchet
  import opened RatchetLink

  /** The stored session after a decryption of `env` failed. */
  function AfterFailure(prims: Primitives, s: Session, env: Envelope): Session
  {
    if ValidEnvelope(env) && env.sessionID == s.sessionID && env.messageID !in s.seen && env.chainIndex !in s.skipped
       && s.recvIndex <= env.chainIndex <= s.recvIndex + MAX_SKIPPED_CHAIN_GAP
    then s.(skipped := Pruned(Filled(prims, s, env.chainIndex), s.recvIndex, MAX_SKIPPED_MESSAGE_KEYS))
    else s
  }

  /** Decrypting at or beyond the receiving index, with the session that is stored afterwards. */
  function SharedAdvance(prims: Primitives, s: Session, env: Envelope): (Session, Result<Bytes>)
  {
    if env.chainIndex < s.recvIndex || env.chainIndex - s.recvIndex > MAX_SKIPPED_CHAIN_GAP
    then (s, Err(InvalidChainIndex))
    else
      var chainKey := WalkKey(prims, s.recvKey, s.recvIndex, env.chainIndex);
      var kept := s.(skipped := Pruned(Filled(prims, s, env.chainIndex), s.recvIndex, MAX_SKIPPED_MESSAGE_KEYS));
      var key := prims.messageKey(chainKey, env.chainIndex);
      if |key| != KEY_SIZE then (kept, Err(InvalidKeySize))
      else
        match prims.cipher.open(key, env.nonce, env.ciphertext, prims.aad(s.sessionID, env.messageID, env.chainIndex))
        case None => (kept, Err(OpenFailed))
        case Some(p) => (MovedOn(kept, env, prims.nextKey(chainKey, env.chainIndex)), Ok(p))
  }

  function MovedOn(s: Session, env: Envelope, nextKey: Bytes): Session
  {
    var recvIndex := (env.chainIndex + 1) % U64_MOD;
    Advanced(s, env, nextKey, recvIndex, Pruned(s.skipped, recvIndex, MAX_SKIPPED_MESSAGE_KEYS))
  }

  /** It differs from the copying store in what a failure leaves behind, and in nothing else. */
  lemma SharedAdvanceIs(prims: Primitives, s: Session, env: Envelope)
    requires ValidEnvelope(env) && env.sessionID == s.sessionID && env.messageID !in s.seen
             && env.chainIndex !in s.skipped
    ensures SharedAdvance(prims, s, env) ==
            match AdvanceOutcome(prims, s, env, NoFault)
            case Ok((next, p)) => (next, Ok(p))
            case Err(e) => (AfterFailure(prims, s, env), Err(e))
  {
  }

  ghost function SharedNext(prims: Primitives, link: Link, step: Step): Link
  {
    match step
    case ReceiverDecrypts(env, fault) =>
      (match DecryptOutcome(prims, Some(link.receiver), env, fault)
       case Ok((s, _)) => Accept(link, env, s)
       case Err(_) => link.(receiver := AfterFailure(prims, link.receiver, env)))
    case SenderDecrypts(env, fault) =>
      (match DecryptOutcome(prims, Some(link.sender), env, fault)
       case Ok((s, _)) => link.(sender := s)
       case Err(_) => link.(sender := AfterFailure(prims, link.sender, env)))
    case _ => Next(prims, link, step)
  }

  ghost function SharedRun(prims: Primitives, link: Link, steps: seq<Step>): Link
  {
    if steps == [] then link
    else SharedNext(prims, SharedRun(prims, link, steps[..|steps| - 1]), steps[|steps| - 1])
  }

  /** As for the copying store, with one window more between the indices and the 64-bit limit; the
      in-memory store never fails. */
  ghost predicate SharedAdmissible(prims: Primitives, chain: Bytes, link: Link, step: Step)
  {
    && Admissible(prims, chain, link, step)
    && (step.SenderEncrypts? ==> |link.sent| + 2 * MAX_SKIPPED_CHAIN_GAP + 1 < U64_MOD)
    && (step.ReceiverDecrypts? || step.SenderDecrypts? ==> step.fault == NoFault)
  }

  ghost predicate SharedAdmissibleRun(prims: Primitives, link: Link, steps: seq<Step>)
  {
    forall k :: 0 <= k < |steps| ==>
      SharedAdmissible(prims, link.sender.sendKey, SharedRun(prims, link, steps[..k]), steps[k])
  }

  // ---------------------------------------------------------------- the invariant

  /** Every key is the right one. */
  ghost predicate KeysRight(prims: Primitives, chain: Bytes, keys: map<nat, Bytes>)
  {
    forall i :: i in keys ==> i < U64_MOD && keys[i] == KeyAt(prims, chain, i)
  }

  /** Keys lie within one window on either side of the receiving index. */
  ghost predicate KeysNear(keys: map<nat, Bytes>, recvIndex: nat)
  {
    forall i :: i in keys ==> recvIndex <= i + MAX_SKIPPED_CHAIN_GAP && i < recvIndex + MAX_SKIPPED_CHAIN_GAP
  }

  /** No key that is still needed is missing. */
  ghost predicate KeysSuffice(keys: map<nat, Bytes>, recvIndex: nat, accepted: seq<nat>)
  {
    forall i :: Missing(i, recvIndex, accepted) ==> i in keys
  }

  ghost predicate SharedInv(prims: Primitives, chain: Bytes, sessionID: Bytes, link: Link)
  {
    var r := link.receiver;
    && SenderInv(prims, chain, sessionID, link.sender, link.sent)
    && |link.sent| + 2 * MAX_SKIPPED_CHAIN_GAP < U64_MOD
    && r.sessionID == sessionID
    && r.recvIndex <= |link.sent|
    && r.recvKey == WalkKey(prims, chain, 0, r.recvIndex)
    && KeysRight(prims, chain, r.skipped) && KeysNear(r.skipped, r.recvIndex)
    && KeysSuffice(r.skipped, r.recvIndex, link.accepted)
    && (forall k :: 0 <= k < |link.accepted| ==> link.accepted[k] < |link.sent|)
    && r.seen == LastN(AcceptedIDs(link), MAX_SEEN_MESSAGE_IDS)
  }

  // ---------------------------------------------------------------- keys

  lemma SharedFilled(prims: Primitives, chain: Bytes, r: Session, index: U64, i: nat)
    requires KeysRight(prims, chain, r.skipped) && r.recvKey == WalkKey(prims, chain, 0, r.recvIndex)
    requires r.recvIndex <= index
    ensures i in Filled(prims, r, index) <==> i in r.skipped || r.recvIndex <= i < index
    ensures i in Filled(prims, r, index) ==> i < U64_MOD && Filled(prims, r, index)[i] == KeyAt(prims, chain, i)
  {
    GapKeysAt(prims, r.recvKey, r.recvIndex, index, i);
    if r.recvIndex <= i < index {
      WalkCompose(prims, chain, 0, r.recvIndex, i);
    }
  }

  lemma SharedFilledIsSmall(prims: Primitives, chain: Bytes, r: Session, index: U64)
    requires KeysRight(prims, chain, r.skipped) && r.recvKey == WalkKey(prims, chain, 0, r.recvIndex)
    requires KeysNear(r.skipped, r.recvIndex)
    requires r.recvIndex <= index <= r.recvIndex + MAX_SKIPPED_CHAIN_GAP
    ensures |Filled(prims, r, index)| <= MAX_SKIPPED_MESSAGE_KEYS
  {
    var keys := Filled(prims, r, index).Keys;
    var lo := if r.recvIndex < MAX_SKIPPED_CHAIN_GAP then 0 else r.recvIndex - MAX_SKIPPED_CHAIN_GAP;
    forall i | i in keys
      ensures lo <= i < r.recvIndex + MAX_SKIPPED_CHAIN_GAP
    {
      SharedFilled(prims, chain, r, index, i);
    }
    BoundedSetSize(keys, lo, r.recvIndex + MAX_SKIPPED_CHAIN_GAP);
  }

  /** Far from the 64-bit limit the window is what it says. */
  lemma InWindowIff(keys: map<nat, Bytes>, recvIndex: nat, i: nat)
    requires i + MAX_SKIPPED_CHAIN_GAP < U64_MOD
    ensures i in InWindow(keys, recvIndex) <==> i in keys && recvIndex <= i + MAX_SKIPPED_CHAIN_GAP
  {
  }

  /** A failed decryption keeps the keys right, near and sufficient. */
  lemma FailureKeepsKeys(prims: Primitives, chain: Bytes, r: Session, index: U64, accepted: seq<nat>)
    requires KeysRight(prims, chain, r.skipped) && r.recvKey == WalkKey(prims, chain, 0, r.recvIndex)
    requires KeysNear(r.skipped, r.recvIndex) && KeysSuffice(r.skipped, r.recvIndex, accepted)
    requires r.recvIndex <= index <= r.recvIndex + MAX_SKIPPED_CHAIN_GAP
    requires r.recvIndex + 2 * MAX_SKIPPED_CHAIN_GAP < U64_MOD
    ensures var keys := Pruned(Filled(prims, r, index), r.recvIndex, MAX_SKIPPED_MESSAGE_KEYS);
            && KeysRight(prims, chain, keys) && KeysNear(keys, r.recvIndex)
            && KeysSuffice(keys, r.recvIndex, accepted)
  {
    var filled := Filled(prims, r, index);
    SharedFilledIsSmall(prims, chain, r, index);
    PrunedSmall(filled, r.recvIndex);
    forall i: nat
      ensures i in InWindow(filled, r.recvIndex) ==>
                i < U64_MOD && filled[i] == KeyAt(prims, chain, i)
                && r.recvIndex <= i + MAX_SKIPPED_CHAIN_GAP && i < r.recvIndex + MAX_SKIPPED_CHAIN_GAP
      ensures Missing(i, r.recvIndex, accepted) ==> i in InWindow(filled, r.recvIndex)
    {
      SharedFilled(prims, chain, r, index, i);
      if i < r.recvIndex + MAX_SKIPPED_CHAIN_GAP {
        InWindowIff(filled, r.recvIndex, i);
      }
    }
  }

  lemma ForwardKey(prims: Primitives, chain: Bytes, r: Session, index: U64, accepted: seq<nat>, i: nat)
    requires KeysRight(prims, chain, r.skipped) && r.recvKey == WalkKey(prims, chain, 0, r.recvIndex)
    requires KeysNear(r.skipped, r.recvIndex) && KeysSuffice(r.skipped, r.recvIndex, accepted)
    requires r.recvIndex <= index <= r.recvIndex + MAX_SKIPPED_CHAIN_GAP
    requires r.recvIndex + 2 * MAX_SKIPPED_CHAIN_GAP < U64_MOD
    ensures var kept := InWindow(InWindow(Filled(prims, r, index), r.recvIndex), index + 1);
            && (i in kept ==> i < U64_MOD && kept[i] == KeyAt(prims, chain, i)
                              && index + 1 <= i + MAX_SKIPPED_CHAIN_GAP && i < index + 1 + MAX_SKIPPED_CHAIN_GAP)
            && (Missing(i, index + 1, accepted + [index]) ==> i in kept)
  {
    var filled := Filled(prims, r, index);
    SharedFilled(prims, chain, r, index, i);
    if i < r.recvIndex + MAX_SKIPPED_CHAIN_GAP {
      InWindowIff(filled, r.recvIndex, i);
      InWindowIff(InWindow(filled, r.recvIndex), index + 1, i);
    }
    assert i in accepted + [index] <==> i in accepted || i == index;
  }

  /** So does a forward step. */
  lemma ForwardKeepsKeys(prims: Primitives, chain: Bytes, r: Session, index: U64, accepted: seq<nat>,
                         keys: map<nat, Bytes>)
    requires KeysRight(prims, chain, r.skipped) && r.recvKey == WalkKey(prims, chain, 0, r.recvIndex)
    requires KeysNear(r.skipped, r.recvIndex) && KeysSuffice(r.skipped, r.recvIndex, accepted)
    requires r.recvIndex <= index <= r.recvIndex + MAX_SKIPPED_CHAIN_GAP
    requires r.recvIndex + 2 * MAX_SKIPPED_CHAIN_GAP < U64_MOD
    requires keys == InWindow(InWindow(Filled(prims, r, index), r.recvIndex), index + 1)
    ensures KeysRight(prims, chain, keys) && KeysNear(keys, index + 1)
    ensures KeysSuffice(keys, index + 1, accepted + [index])
  {
    forall i: nat
      ensures i in keys ==> i < U64_MOD && keys[i] == KeyAt(prims, chain, i)
                            && index + 1 <= i + MAX_SKIPPED_CHAIN_GAP && i < index + 1 + MAX_SKIPPED_CHAIN_GAP
      ensures Missing(i, index + 1, accepted + [index]) ==> i in keys
    {
      ForwardKey(prims, chain, r, index, accepted, i);
    }
  }

  lemma SharedCapNeverFires(prims: Primitives, chain: Bytes, r: Session, index: U64)
    requires KeysRight(prims, chain, r.skipped) && r.recvKey == WalkKey(prims, chain, 0, r.recvIndex)
    requires KeysNear(r.skipped, r.recvIndex)
    requires r.recvIndex <= index <= r.recvIndex + MAX_SKIPPED_CHAIN_GAP
    ensures KeysAfter(prims, r, index)
         == InWindow(InWindow(Filled(prims, r, index), r.recvIndex), (index + 1) % U64_MOD)
  {
    SharedFilledIsSmall(prims, chain, r, index);
    PrunedTwice(Filled(prims, r, index), r.recvIndex, (index + 1) % U64_MOD);
  }

  // ---------------------------------------------------------------- steps

  lemma AcceptSharedSkipped(prims: Primitives, chain: Bytes, sessionID: Bytes, link: Link, env: Envelope, p: Bytes,
                            after: Session)
    requires prims.Sound() && SharedInv(prims, chain, sessionID, link)
    requires Unforged(prims, chain, link.sent, env.ciphertext)
    requires env.chainIndex in link.receiver.skipped
    requires prims.cipher.open(link.receiver.skipped[env.chainIndex], env.nonce, env.ciphertext,
                        prims.aad(sessionID, env.messageID, env.chainIndex)) == Some(p)
    requires after == link.receiver.(skipped := link.receiver.skipped - {env.chainIndex},
                                     seen := AppendSeen(link.receiver.seen, env.messageID))
    ensures Delivery(link.sent, env, p)
    ensures SharedInv(prims, chain, sessionID, Accept(link, env, after))
  {
    OpenedIsGenuine(prims, chain, sessionID, link.sent, env);
    SeenStep(link, env, after);
    var accepted := link.accepted + [env.chainIndex];
    assert forall i :: i in accepted <==> i in link.accepted || i == env.chainIndex;
  }

  lemma AcceptSharedForward(prims: Primitives, chain: Bytes, sessionID: Bytes, link: Link, env: Envelope, p: Bytes,
                            after: Session)
    requires prims.Sound() && SharedInv(prims, chain, sessionID, link)
    requires Unforged(prims, chain, link.sent, env.ciphertext)
    requires link.receiver.recvIndex <= env.chainIndex <= link.receiver.recvIndex + MAX_SKIPPED_CHAIN_GAP
    requires prims.cipher.open(KeyAt(prims, chain, env.chainIndex), env.nonce, env.ciphertext,
                        prims.aad(sessionID, env.messageID, env.chainIndex)) == Some(p)
    requires after.recvIndex == env.chainIndex + 1
    requires after == link.receiver.(
      recvKey := prims.nextKey(WalkKey(prims, chain, 0, env.chainIndex), env.chainIndex),
      recvIndex := after.recvIndex, skipped := after.skipped, seen := AppendSeen(link.receiver.seen, env.messageID))
    requires KeysRight(prims, chain, after.skipped) && KeysNear(after.skipped, after.recvIndex)
    requires KeysSuffice(after.skipped, after.recvIndex, link.accepted + [env.chainIndex])
    ensures Delivery(link.sent, env, p)
    ensures SharedInv(prims, chain, sessionID, Accept(link, env, after))
  {
    OpenedIsGenuine(prims, chain, sessionID, link.sent, env);
    SeenStep(link, env, after);
    WalkExtend(prims, chain, 0, env.chainIndex);
  }

  lemma AcceptSharedWindow(prims: Primitives, chain: Bytes, sessionID: Bytes, link: Link, env: Envelope, p: Bytes,
                           after: Session, keys: map<nat, Bytes>)
    requires prims.Sound() && SharedInv(prims, chain, sessionID, link)
    requires Unforged(prims, chain, link.sent, env.ciphertext)
    requires link.receiver.recvIndex <= env.chainIndex <= link.receiver.recvIndex + MAX_SKIPPED_CHAIN_GAP
    requires prims.cipher.open(KeyAt(prims, chain, env.chainIndex), env.nonce, env.ciphertext,
                        prims.aad(sessionID, env.messageID, env.chainIndex)) == Some(p)
    requires after.recvIndex == env.chainIndex + 1
    requires after == link.receiver.(
      recvKey := prims.nextKey(WalkKey(prims, chain, 0, env.chainIndex), env.chainIndex),
      recvIndex := after.recvIndex, skipped := keys, seen := AppendSeen(link.receiver.seen, env.messageID))
    requires keys == InWindow(InWindow(Filled(prims, link.receiver, env.chainIndex), link.receiver.recvIndex),
                              env.chainIndex + 1)
    ensures Delivery(link.sent, env, p)
    ensures SharedInv(prims, chain, sessionID, Accept(link, env, after))
  {
    ForwardKeepsKeys(prims, chain, link.receiver, env.chainIndex, link.accepted, keys);
    AcceptSharedForward(prims, chain, sessionID, link, env, p, after);
  }

  /** What a successful decryption at or beyond the receiving index has opened, and where it moves. */
  lemma AdvanceParts(prims: Primitives, chain: Bytes, s: Session, env: Envelope, fault: Fault)
    requires s.recvKey == WalkKey(prims, chain, 0, s.recvIndex) && AdvanceOutcome(prims, s, env, fault).Ok?
    ensures s.recvIndex <= env.chainIndex <= s.recvIndex + MAX_SKIPPED_CHAIN_GAP
    ensures var (after, p) := AdvanceOutcome(prims, s, env, fault).value;
            && prims.cipher.open(KeyAt(prims, chain, env.chainIndex), env.nonce, env.ciphertext,
                          prims.aad(s.sessionID, env.messageID, env.chainIndex)) == Some(p)
            && after == Advanced(s, env, prims.nextKey(WalkKey(prims, chain, 0, env.chainIndex), env.chainIndex),
                                 (env.chainIndex + 1) % U64_MOD, KeysAfter(prims, s, env.chainIndex))
  {
    WalkCompose(prims, chain, 0, s.recvIndex, env.chainIndex);
  }

  lemma SharedAdvanceAccepts(prims: Primitives, chain: Bytes, sessionID: Bytes, link: Link, env: Envelope, fault: Fault)
    requires prims.Sound() && SharedInv(prims, chain, sessionID, link)
    requires Unforged(prims, chain, link.sent, env.ciphertext)
    requires AdvanceOutcome(prims, link.receiver, env, fault).Ok?
    ensures var (after, p) := AdvanceOutcome(prims, link.receiver, env, fault).value;
            Delivery(link.sent, env, p) && SharedInv(prims, chain, sessionID, Accept(link, env, after))
  {
    var r := link.receiver;
    var (after, p) := AdvanceOutcome(prims, r, env, fault).value;
    AdvanceParts(prims, chain, r, env, fault);
    SharedCapNeverFires(prims, chain, r, env.chainIndex);
    AcceptSharedWindow(prims, chain, sessionID, link, env, p, after, after.skipped);
  }

  lemma SharedDecryptAccepts(prims: Primitives, chain: Bytes, sessionID: Bytes, link: Link, env: Envelope, fault: Fault)
    requires prims.Sound() && SharedInv(prims, chain, sessionID, link)
    requires Unforged(prims, chain, link.sent, env.ciphertext)
    requires DecryptOutcome(prims, Some(link.receiver), env, fault).Ok?
    ensures var (after, p) := DecryptOutcome(prims, Some(link.receiver), env, fault).value;
            Delivery(link.sent, env, p) && SharedInv(prims, chain, sessionID, Accept(link, env, after))
  {
    if env.chainIndex in link.receiver.skipped {
      var (after, p) := DecryptOutcome(prims, Some(link.receiver), env, fault).value;
      AcceptSharedSkipped(prims, chain, sessionID, link, env, p, after);
    } else {
      SharedAdvanceAccepts(prims, chain, sessionID, link, env, fault);
    }
  }

  lemma FailureKeepsInv(prims: Primitives, chain: Bytes, sessionID: Bytes, link: Link, env: Envelope)
    requires SharedInv(prims, chain, sessionID, link)
    ensures SharedInv(prims, chain, sessionID, link.(receiver := AfterFailure(prims, link.receiver, env)))
  {
    var r, after := link.receiver, AfterFailure(prims, link.receiver, env);
    if after != r {
      FailureKeepsKeys(prims, chain, r, env.chainIndex, link.accepted);
    }
    assert AcceptedIDs(link.(receiver := after)) == AcceptedIDs(link);
  }

  lemma SharedHistoryGrows(prims: Primitives, chain: Bytes, sessionID: Bytes, link: Link, longer: Link)
    requires SharedInv(prims, chain, sessionID, link)
    requires longer.receiver.(sendIndex := 0, sendKey := "") == link.receiver.(sendIndex := 0, sendKey := "")
    requires longer.accepted == link.accepted && link.sent <= longer.sent
    requires SenderInv(prims, chain, sessionID, longer.sender, longer.sent)
    requires |longer.sent| + 2 * MAX_SKIPPED_CHAIN_GAP < U64_MOD
    ensures SharedInv(prims, chain, sessionID, longer)
  {
    assert AcceptedIDs(longer) == AcceptedIDs(link);
  }

  lemma SharedStepKeepsInv(prims: Primitives, chain: Bytes, sessionID: Bytes, link: Link, step: Step)
    requires prims.Sound() && SharedInv(prims, chain, sessionID, link) && sessionID != ""
    requires SharedAdmissible(prims, chain, link, step)
    ensures SharedInv(prims, chain, sessionID, SharedNext(prims, link, step))
  {
    match step
    case ReceiverDecrypts(env, fault) =>
      if DecryptOutcome(prims, Some(link.receiver), env, fault).Ok? {
        SharedDecryptAccepts(prims, chain, sessionID, link, env, fault);
      } else {
        FailureKeepsInv(prims, chain, sessionID, link, env);
      }
    case SenderEncrypts(p, clock, nonce, fault) =>
      if EncryptOutcome(prims, Some(link.sender), p, clock, nonce, fault).Ok? {
        SenderAdvances(prims, chain, sessionID, link.sender, link.sent, p, clock, nonce, fault);
        SharedHistoryGrows(prims, chain, sessionID, link, Next(prims, link, step));
      }
    case ReceiverEncrypts(_, _, _, _) =>
      SharedHistoryGrows(prims, chain, sessionID, link, Next(prims, link, step));
    case SenderDecrypts(env, fault) =>
      if DecryptOutcome(prims, Some(link.sender), env, fault).Ok? {
        DecryptKeepsSending(prims, link.sender, env, fault);
      }
      SharedHistoryGrows(prims, chain, sessionID, link, SharedNext(prims, link, step));
  }

  // ---------------------------------------------------------------- whole runs

  lemma {:induction false} SharedReachableInv(prims: Primitives, senderID: Bytes, receiverID: Bytes, key: Bytes,
                                              steps: seq<Step>)
    requires prims.Sound() && senderID != receiverID
    requires SharedAdmissibleRun(prims, Start(prims, senderID, receiverID, key), steps)
    ensures var start := Start(prims, senderID, receiverID, key);
            SharedInv(prims, start.sender.sendKey, start.sender.sessionID, SharedRun(prims, start, steps))
  {
    var start := Start(prims, senderID, receiverID, key);
    if steps == [] {
      InitialSessionsCross(prims, senderID, receiverID, key);
    } else {
      var before := steps[..|steps| - 1];
      assert forall k :: 0 <= k <= |before| ==> before[..k] == steps[..k];
      SharedReachableInv(prims, senderID, receiverID, key, before);
      assert start.sender.sessionID[0] == 's';
      SharedStepKeepsInv(prims, start.sender.sendKey, start.sender.sessionID, SharedRun(prims, start, before),
                         steps[|steps| - 1]);
    }
  }

  /** In every reachable state every stored key is the right one, and whatever opens is a message the
      sender sent, with the plaintext it was sealed with. */
  lemma SharedKeysAreRight(prims: Primitives, senderID: Bytes, receiverID: Bytes, key: Bytes, steps: seq<Step>,
                           env: Envelope, fault: Fault)
    requires prims.Sound() && senderID != receiverID
    requires SharedAdmissibleRun(prims, Start(prims, senderID, receiverID, key), steps)
    requires var start := Start(prims, senderID, receiverID, key);
             Unforged(prims, start.sender.sendKey, SharedRun(prims, start, steps).sent, env.ciphertext)
    ensures var start := Start(prims, senderID, receiverID, key);
            var link := SharedRun(prims, start, steps);
            var outcome := DecryptOutcome(prims, Some(link.receiver), env, fault);
            && KeysRight(prims, start.sender.sendKey, link.receiver.skipped)
            && (outcome.Ok? ==> Delivery(link.sent, env, outcome.value.1))
  {
    SharedReachableInv(prims, senderID, receiverID, key, steps);
    var start := Start(prims, senderID, receiverID, key);
    var link := SharedRun(prims, start, steps);
    if DecryptOutcome(prims, Some(link.receiver), env, fault).Ok? {
      SharedDecryptAccepts(prims, start.sender.sendKey, start.sender.sessionID, link, env, fault);
    }
  }

  // ---------------------------------------------------------------- exactly which deliveries succeed

  /** The remembered ids are those of the last 1024 indices accepted. */
  lemma RememberedIDs(link: Link)
    requires forall k :: 0 <= k < |link.accepted| ==> link.accepted[k] < |link.sent|
    requires link.receiver.seen == LastN(AcceptedIDs(link), MAX_SEEN_MESSAGE_IDS)
    ensures var last := LastN(link.accepted, MAX_SEEN_MESSAGE_IDS);
            && |link.receiver.seen| == |last|
            && forall k :: 0 <= k < |last| ==>
                 last[k] < |link.sent| && link.receiver.seen[k] == link.sent[last[k]].env.messageID
  {
  }

  /** Different messages have different ids. */
  lemma IDsDiffer(prims: Primitives, chain: Bytes, sessionID: Bytes, link: Link, i: nat, j: nat)
    requires prims.Sound() && SenderInv(prims, chain, sessionID, link.sender, link.sent)
    requires i < |link.sent| && j < |link.sent| && link.sent[i].env.messageID == link.sent[j].env.messageID
    ensures i == j
  {
    assert Genuine(prims, chain, sessionID, i, link.sent[i]);
    assert Genuine(prims, chain, sessionID, j, link.sent[j]);
  }

  /** A message id is remembered exactly as long as its index is among the last 1024 accepted. */
  lemma RememberedIff(prims: Primitives, chain: Bytes, sessionID: Bytes, link: Link, i: nat)
    requires prims.Sound() && SenderInv(prims, chain, sessionID, link.sender, link.sent)
    requires forall k :: 0 <= k < |link.accepted| ==> link.accepted[k] < |link.sent|
    requires link.receiver.seen == LastN(AcceptedIDs(link), MAX_SEEN_MESSAGE_IDS) && i < |link.sent|
    ensures link.sent[i].env.messageID in link.receiver.seen <==> i in LastN(link.accepted, MAX_SEEN_MESSAGE_IDS)
  {
    var seen, last, id := link.receiver.seen, LastN(link.accepted, MAX_SEEN_MESSAGE_IDS), link.sent[i].env.messageID;
    RememberedIDs(link);
    if id in seen {
      var k :| 0 <= k < |seen| && seen[k] == id;
      IDsDiffer(prims, chain, sessionID, link, i, last[k]);
    }
    if i in last {
      var k :| 0 <= k < |last| && last[k] == i;
      assert seen[k] == id;
    }
  }

  lemma SharedOpensIff(prims: Primitives, chain: Bytes, sessionID: Bytes, link: Link, i: nat)
    requires prims.Sound() && SharedInv(prims, chain, sessionID, link) && i < |link.sent|
    ensures var outcome := DecryptOutcome(prims, Some(link.receiver), link.sent[i].env, NoFault);
            && (outcome.Ok? <==>
                  && link.sent[i].env.messageID !in link.receiver.seen
                  && (i in link.receiver.skipped
                      || link.receiver.recvIndex <= i <= link.receiver.recvIndex + MAX_SKIPPED_CHAIN_GAP))
            && (outcome.Ok? ==> outcome.value.1 == link.sent[i].plaintext)
  {
    assert Genuine(prims, chain, sessionID, i, link.sent[i]);
    if link.receiver.recvIndex <= i {
      WalkCompose(prims, chain, 0, link.receiver.recvIndex, i);
    }
  }

  /** In every reachable state, handing message `i` to the receiver returns exactly its plaintext if and
      only if `i` is not among the last 1024 indices accepted and its key is stored or at most 512
      ahead; in particular every message not accepted yet and within reach is delivered. */
  lemma SharedDelivery(prims: Primitives, senderID: Bytes, receiverID: Bytes, key: Bytes, steps: seq<Step>, i: nat)
    requires prims.Sound() && senderID != receiverID
    requires SharedAdmissibleRun(prims, Start(prims, senderID, receiverID, key), steps)
    requires i < |SharedRun(prims, Start(prims, senderID, receiverID, key), steps).sent|
    ensures var link := SharedRun(prims, Start(prims, senderID, receiverID, key), steps);
            var outcome := DecryptOutcome(prims, Some(link.receiver), link.sent[i].env, NoFault);
            && (outcome.Ok? <==>
                  && i !in LastN(link.accepted, MAX_SEEN_MESSAGE_IDS)
                  && (i in link.receiver.skipped
                      || link.receiver.recvIndex <= i <= link.receiver.recvIndex + MAX_SKIPPED_CHAIN_GAP))
            && (outcome.Ok? ==> outcome.value.1 == link.sent[i].plaintext)
            && (i !in link.accepted && InReach(i, link.receiver.recvIndex) ==> outcome.Ok?)
  {
    SharedReachableInv(prims, senderID, receiverID, key, steps);
    var start := Start(prims, senderID, receiverID, key);
    var chain, sessionID, link := start.sender.sendKey, start.sender.sessionID, SharedRun(prims, start, steps);
    RememberedIff(prims, chain, sessionID, link, i);
    SharedOpensIff(prims, chain, sessionID, link, i);
    assert i in LastN(link.accepted, MAX_SEEN_MESSAGE_IDS) ==> i in link.accepted;
    assert Missing(i, link.receiver.recvIndex, link.accepted) ==> i in link.receiver.skipped;
  }

  /** Handing over an index accepted before adds it to the accepted ones again if and only if it is not
      among the last 1024 of them and its key is stored or at most 512 ahead. */
  lemma AcceptedAgainIff(prims: Primitives, senderID: Bytes, receiverID: Bytes, key: Bytes, steps: seq<Step>, i: nat)
    requires prims.Sound() && senderID != receiverID
    requires SharedAdmissibleRun(prims, Start(prims, senderID, receiverID, key), steps)
    requires i in SharedRun(prims, Start(prims, senderID, receiverID, key), steps).accepted
    ensures var link := SharedRun(prims, Start(prims, senderID, receiverID, key), steps);
            && i < |link.sent|
            && SharedNext(prims, link, ReceiverDecrypts(link.sent[i].env, NoFault)).accepted
               == if && i !in LastN(link.accepted, MAX_SEEN_MESSAGE_IDS)
                     && (i in link.receiver.skipped
                         || link.receiver.recvIndex <= i <= link.receiver.recvIndex + MAX_SKIPPED_CHAIN_GAP)
                  then link.accepted + [i] else link.accepted
  {
    SharedReachableInv(prims, senderID, receiverID, key, steps);
    var start := Start(prims, senderID, receiverID, key);
    var link := SharedRun(prims, start, steps);
    var k :| 0 <= k < |link.accepted| && link.accepted[k] == i;
    SharedDelivery(prims, senderID, receiverID, key, steps, i);
    assert Genuine(prims, start.sender.sendKey, start.sender.sessionID, i, link.sent[i]);
  }

  // ---------------------------------------------------------------- exactly which failures matter

  /** If decrypting `env` fails, it does so after the walk over a gap. */
  predicate PassesGap(r: Session, env: Envelope)
  {
    && ValidEnvelope(env) && env.sessionID == r.sessionID && env.messageID !in r.seen
    && env.chainIndex !in r.skipped
    && r.recvIndex < env.chainIndex <= r.recvIndex + MAX_SKIPPED_CHAIN_GAP
  }

  /** The keys after such a failure: those of the gap have come in. */
  lemma FailureKeys(prims: Primitives, chain: Bytes, r: Session, env: Envelope, i: nat)
    requires KeysRight(prims, chain, r.skipped) && r.recvKey == WalkKey(prims, chain, 0, r.recvIndex)
    requires KeysNear(r.skipped, r.recvIndex) && r.recvIndex + 2 * MAX_SKIPPED_CHAIN_GAP < U64_MOD
    requires PassesGap(r, env)
    ensures i in AfterFailure(prims, r, env).skipped <==> i in r.skipped || r.recvIndex <= i < env.chainIndex
  {
    var filled := Filled(prims, r, env.chainIndex);
    SharedFilledIsSmall(prims, chain, r, env.chainIndex);
    PrunedSmall(filled, r.recvIndex);
    SharedFilled(prims, chain, r, env.chainIndex, i);
    if i < r.recvIndex + MAX_SKIPPED_CHAIN_GAP {
      InWindowIff(filled, r.recvIndex, i);
    }
  }

  lemma KeysAreNear(prims: Primitives, chain: Bytes, r: Session, accepted: seq<nat>)
    requires KeysExact(prims, chain, r, accepted)
    ensures KeysRight(prims, chain, r.skipped) && KeysNear(r.skipped, r.recvIndex)
  {
  }

  /** A failure at the receiving index itself, without a gap, changes nothing. */
  lemma NoGapNoChange(prims: Primitives, chain: Bytes, r: Session, accepted: seq<nat>)
    requires KeysExact(prims, chain, r, accepted) && r.recvKey == WalkKey(prims, chain, 0, r.recvIndex)
    requires r.recvIndex + MAX_SKIPPED_CHAIN_GAP < U64_MOD
    ensures Pruned(Filled(prims, r, r.recvIndex), r.recvIndex, MAX_SKIPPED_MESSAGE_KEYS) == r.skipped
  {
    FilledIsSmall(prims, chain, r, accepted, r.recvIndex);
    assert Filled(prims, r, r.recvIndex) == r.skipped;
    PrunedSmall(r.skipped, r.recvIndex);
    forall i | i in r.skipped
      ensures !OutOfWindow(i, r.recvIndex)
    {
      InWindowIff(r.skipped, r.recvIndex, i);
    }
  }

  /** While the stored keys are exact, a failing decryption leaves the stored session as it was if and
      only if it does not pass a gap. */
  lemma FailureLeavesNothingIff(prims: Primitives, chain: Bytes, sessionID: Bytes, link: Link, env: Envelope)
    requires Inv(prims, chain, sessionID, link) && |link.sent| + 2 * MAX_SKIPPED_CHAIN_GAP < U64_MOD
    ensures AfterFailure(prims, link.receiver, env) == link.receiver <==> !PassesGap(link.receiver, env)
  {
    var r := link.receiver;
    KeysAreNear(prims, chain, r, link.accepted);
    if PassesGap(r, env) {
      FailureKeys(prims, chain, r, env, r.recvIndex);
    } else {
      NoGapNoChange(prims, chain, r, link.accepted);
    }
  }

  /** `env` carries a message that was sent. */
  predicate IsSent(sent: seq<Sent>, env: Envelope)
  {
    && env.chainIndex < |sent|
    && var s := sent[env.chainIndex].env;
       s.messageID == env.messageID && s.nonce == env.nonce && s.ciphertext == env.ciphertext
  }

  /** The version, the ratchet key and the previous count of an envelope do not matter once it is valid. */
  lemma OpensLike(prims: Primitives, r: Session, env: Envelope, other: Envelope)
    requires PassesGap(r, env) && ValidEnvelope(other)
    requires other == env.(version := other.version, ratchetKey := other.ratchetKey,
                           previousCount := other.previousCount)
    ensures DecryptOutcome(prims, Some(r), env, NoFault) == DecryptOutcome(prims, Some(r), other, NoFault)
  {
  }

  /** Past a gap a decryption fails if and only if the envelope carries nothing that was sent. */
  lemma FailsPastGapIff(prims: Primitives, chain: Bytes, sessionID: Bytes, link: Link, env: Envelope)
    requires prims.Sound() && SharedInv(prims, chain, sessionID, link)
    requires Unforged(prims, chain, link.sent, env.ciphertext) && PassesGap(link.receiver, env)
    ensures DecryptOutcome(prims, Some(link.receiver), env, NoFault).Err? <==> !IsSent(link.sent, env)
  {
    if DecryptOutcome(prims, Some(link.receiver), env, NoFault).Ok? {
      SharedDecryptAccepts(prims, chain, sessionID, link, env, NoFault);
    }
    if IsSent(link.sent, env) {
      assert Genuine(prims, chain, sessionID, env.chainIndex, link.sent[env.chainIndex]);
      SharedOpensIff(prims, chain, sessionID, link, env.chainIndex);
      OpensLike(prims, link.receiver, env, link.sent[env.chainIndex].env);
    }
  }

  /** A step in which the receiver is given an envelope past a gap that carries nothing that was sent. */
  ghost predicate LeavesKeys(link: Link, step: Step)
  {
    step.ReceiverDecrypts? && PassesGap(link.receiver, step.env) && !IsSent(link.sent, step.env)
  }

  ghost predicate Quiet(prims: Primitives, link: Link, steps: seq<Step>)
  {
    forall k :: 0 <= k < |steps| ==> !LeavesKeys(SharedRun(prims, link, steps[..k]), steps[k])
  }

  lemma QuietStepKeepsInv(prims: Primitives, chain: Bytes, sessionID: Bytes, link: Link, step: Step)
    requires prims.Sound() && Inv(prims, chain, sessionID, link) && SharedInv(prims, chain, sessionID, link)
    requires sessionID != "" && SharedAdmissible(prims, chain, link, step) && !LeavesKeys(link, step)
    ensures Inv(prims, chain, sessionID, SharedNext(prims, link, step))
  {
    StepKeepsInv(prims, chain, sessionID, link, step);
    if step.ReceiverDecrypts? {
      FailureLeavesNothingIff(prims, chain, sessionID, link, step.env);
      if PassesGap(link.receiver, step.env) {
        FailsPastGapIff(prims, chain, sessionID, link, step.env);
      }
    } else if step.SenderDecrypts? {
      SenderFailureKeepsInv(prims, chain, sessionID, link, step.env);
    }
  }

  lemma SenderFailureKeepsInv(prims: Primitives, chain: Bytes, sessionID: Bytes, link: Link, env: Envelope)
    requires Inv(prims, chain, sessionID, link)
    ensures Inv(prims, chain, sessionID, link.(sender := AfterFailure(prims, link.sender, env)))
  {
    assert AcceptedIDs(link.(sender := AfterFailure(prims, link.sender, env))) == AcceptedIDs(link);
  }

  lemma {:induction false} QuietInv(prims: Primitives, senderID: Bytes, receiverID: Bytes, key: Bytes, steps: seq<Step>)
    requires prims.Sound() && senderID != receiverID
    requires SharedAdmissibleRun(prims, Start(prims, senderID, receiverID, key), steps)
    requires Quiet(prims, Start(prims, senderID, receiverID, key), steps)
    ensures var start := Start(prims, senderID, receiverID, key);
            Inv(prims, start.sender.sendKey, start.sender.sessionID, SharedRun(prims, start, steps))
  {
    var start := Start(prims, senderID, receiverID, key);
    if steps == [] {
      InitialSessionsCross(prims, senderID, receiverID, key);
    } else {
      var before := steps[..|steps| - 1];
      assert forall k :: 0 <= k <= |before| ==> before[..k] == steps[..k];
      QuietInv(prims, senderID, receiverID, key, before);
      SharedReachableInv(prims, senderID, receiverID, key, before);
      assert start.sender.sessionID[0] == 's';
      QuietStepKeepsInv(prims, start.sender.sendKey, start.sender.sessionID, SharedRun(prims, start, before),
                        steps[|steps| - 1]);
    }
  }

  /** The stored keys of the receiver are exactly the ones still needed, all along the run. */
  ghost predicate ExactThroughout(prims: Primitives, link: Link, steps: seq<Step>)
  {
    forall k :: 0 <= k <= |steps| ==> ExactAt(prims, link.sender.sendKey, SharedRun(prims, link, steps[..k]))
  }

  ghost predicate ExactAt(prims: Primitives, chain: Bytes, link: Link)
  {
    KeysExact(prims, chain, link.receiver, link.accepted)
  }

  lemma LeavingKeysIsInexact(prims: Primitives, chain: Bytes, sessionID: Bytes, link: Link, step: Step)
    requires prims.Sound() && Inv(prims, chain, sessionID, link) && SharedInv(prims, chain, sessionID, link)
    requires SharedAdmissible(prims, chain, link, step) && LeavesKeys(link, step)
    ensures !ExactAt(prims, chain, SharedNext(prims, link, step))
  {
    var r := link.receiver;
    FailsPastGapIff(prims, chain, sessionID, link, step.env);
    FailureKeys(prims, chain, r, step.env, r.recvIndex);
    assert !Missing(r.recvIndex, r.recvIndex, link.accepted);
  }

  lemma LastStepIsQuiet(prims: Primitives, senderID: Bytes, receiverID: Bytes, key: Bytes, before: seq<Step>,
                        last: Step)
    requires prims.Sound() && senderID != receiverID
    requires var start := Start(prims, senderID, receiverID, key);
             && SharedAdmissibleRun(prims, start, before) && Quiet(prims, start, before)
             && SharedAdmissible(prims, start.sender.sendKey, SharedRun(prims, start, before), last)
             && ExactAt(prims, start.sender.sendKey, SharedNext(prims, SharedRun(prims, start, before), last))
    ensures !LeavesKeys(SharedRun(prims, Start(prims, senderID, receiverID, key), before), last)
  {
    var start := Start(prims, senderID, receiverID, key);
    QuietInv(prims, senderID, receiverID, key, before);
    SharedReachableInv(prims, senderID, receiverID, key, before);
    if LeavesKeys(SharedRun(prims, start, before), last) {
      LeavingKeysIsInexact(prims, start.sender.sendKey, start.sender.sessionID, SharedRun(prims, start, before), last);
    }
  }

  lemma ExactBefore(prims: Primitives, start: Link, steps: seq<Step>, before: seq<Step>, last: Step)
    requires steps != [] && before == steps[..|steps| - 1] && last == steps[|steps| - 1]
    requires SharedAdmissibleRun(prims, start, steps) && ExactThroughout(prims, start, steps)
    ensures SharedAdmissibleRun(prims, start, before) && ExactThroughout(prims, start, before)
    ensures SharedAdmissible(prims, start.sender.sendKey, SharedRun(prims, start, before), last)
    ensures ExactAt(prims, start.sender.sendKey, SharedNext(prims, SharedRun(prims, start, before), last))
  {
    assert forall k :: 0 <= k <= |before| ==> before[..k] == steps[..k];
    assert steps[..|steps|] == steps;
  }

  lemma QuietExtends(prims: Primitives, start: Link, steps: seq<Step>, last: Step)
    requires Quiet(prims, start, steps) && !LeavesKeys(SharedRun(prims, start, steps), last)
    ensures Quiet(prims, start, steps + [last])
  {
    var longer := steps + [last];
    assert longer[..|steps|] == steps;
    forall k | 0 <= k < |longer|
      ensures !LeavesKeys(SharedRun(prims, start, longer[..k]), longer[k])
    {
      assert k < |steps| ==> longer[..k] == steps[..k];
    }
  }

  lemma {:induction false} ExactMeansQuiet(prims: Primitives, senderID: Bytes, receiverID: Bytes, key: Bytes,
                                           steps: seq<Step>)
    requires prims.Sound() && senderID != receiverID
    requires SharedAdmissibleRun(prims, Start(prims, senderID, receiverID, key), steps)
    requires ExactThroughout(prims, Start(prims, senderID, receiverID, key), steps)
    ensures Quiet(prims, Start(prims, senderID, receiverID, key), steps)
  {
    if steps != [] {
      var start, before, last := Start(prims, senderID, receiverID, key), steps[..|steps| - 1], steps[|steps| - 1];
      ExactBefore(prims, start, steps, before, last);
      ExactMeansQuiet(prims, senderID, receiverID, key, before);
      LastStepIsQuiet(prims, senderID, receiverID, key, before, last);
      QuietExtends(prims, start, before, last);
      assert before + [last] == steps;
    }
  }

  /** With a shared key map the stored keys are exactly the ones still needed, all along a run, if and
      only if the receiver is never given an envelope past a gap that carries nothing that was sent; and
      then no index is accepted twice. */
  lemma SharedExactIff(prims: Primitives, senderID: Bytes, receiverID: Bytes, key: Bytes, steps: seq<Step>)
    requires prims.Sound() && senderID != receiverID
    requires SharedAdmissibleRun(prims, Start(prims, senderID, receiverID, key), steps)
    ensures var start := Start(prims, senderID, receiverID, key);
            && (ExactThroughout(prims, start, steps) <==> Quiet(prims, start, steps))
            && (Quiet(prims, start, steps) ==> Distinct(SharedRun(prims, start, steps).accepted))
  {
    var start := Start(prims, senderID, receiverID, key);
    if ExactThroughout(prims, start, steps) {
      ExactMeansQuiet(prims, senderID, receiverID, key, steps);
    }
    if Quiet(prims, start, steps) {
      QuietInv(prims, senderID, receiverID, key, steps);
      forall k | 0 <= k <= |steps|
        ensures ExactAt(prims, start.sender.sendKey, SharedRun(prims, start, steps[..k]))
      {
        QuietPrefix(prims, start, steps, k);
        QuietInv(prims, senderID, receiverID, key, steps[..k]);
      }
    }
  }

  lemma QuietPrefix(prims: Primitives, link: Link, steps: seq<Step>, n: nat)
    requires n <= |steps| && Quiet(prims, link, steps) && SharedAdmissibleRun(prims, link, steps)
    ensures Quiet(prims, link, steps[..n]) && SharedAdmissibleRun(prims, link, steps[..n])
  {
    assert forall k :: 0 <= k <= n ==> steps[..n][..k] == steps[..k];
  }

  // ---------------------------------------------------------------- the store

  /** A map of keys that several copies of a session refer to. */
  class KeyMap {
    var content: map<nat, Bytes>

    constructor ()
      ensures content == map[]
    {
      content := map[];
    }
  }

  /** One session of the in-memory store: `fixed` is the saved struct, whose key map is `keys`. */
  class StoredSession {
    const prims: Primitives
    const keys: KeyMap
    var fixed: Session

    constructor (prims: Primitives, s: Session)
      ensures this.prims == prims && fresh(keys) && View() == s.(skipped := map[])
    {
      this.prims := prims;
      keys := new KeyMap();
      fixed := s;
    }

    function View(): Session
      reads this, keys
    {
      fixed.(skipped := keys.content)
    }

    /** Walks the chain up to `target`, writing the keys passed into the shared map. */
    method FillGap(target: U64) returns (chainKey: Bytes)
      requires fixed.recvIndex <= target
      modifies keys
      ensures chainKey == WalkKey(prims, fixed.recvKey, fixed.recvIndex, target)
      ensures keys.content == Pruned(Filled(prims, old(View()), target), fixed.recvIndex, MAX_SKIPPED_MESSAGE_KEYS)
    {
      var filled;
      chainKey, filled := SkipTo(prims, fixed.recvKey, fixed.recvIndex, target, keys.content);
      keys.content := PruneSkippedKeys(filled, fixed.recvIndex, MAX_SKIPPED_MESSAGE_KEYS);
    }

    /** Saves the session moved past the index of `env`. */
    method MoveOn(env: Envelope, nextKey: Bytes)
      modifies this, keys
      ensures View() == MovedOn(old(View()), env, nextKey)
    {
      var recvIndex := (env.chainIndex + 1) % U64_MOD;
      keys.content := PruneSkippedKeys(keys.content, recvIndex, MAX_SKIPPED_MESSAGE_KEYS);
      fixed := Advanced(fixed, env, nextKey, recvIndex, keys.content);
    }

    method Advance(env: Envelope) returns (r: Result<Bytes>)
      modifies this, keys
      ensures (View(), r) == SharedAdvance(prims, old(View()), env)
    {
      if env.chainIndex < fixed.recvIndex || env.chainIndex - fixed.recvIndex > MAX_SKIPPED_CHAIN_GAP {
        return Err(InvalidChainIndex);
      }
      var chainKey := FillGap(env.chainIndex);
      var key := prims.messageKey(chainKey, env.chainIndex);
      if |key| != KEY_SIZE {
        return Err(InvalidKeySize);
      }
      var plain := prims.cipher.open(key, env.nonce, env.ciphertext,
                                     prims.aad(fixed.sessionID, env.messageID, env.chainIndex));
      if plain.None? {
        return Err(OpenFailed);
      }
      MoveOn(env, prims.nextKey(chainKey, env.chainIndex));
      return Ok(plain.value);
    }

    method Decrypt(env: Envelope) returns (r: Result<Bytes>)
      modifies this, keys
      ensures match DecryptOutcome(prims, Some(old(View())), env, NoFault)
              case Ok((s, p)) => r == Ok(p) && View() == s
              case Err(e) => r == Err(e) && View() == AfterFailure(prims, old(View()), env)
    {
      if !ValidEnvelope(env) {
        return Err(InvalidEnvelope);
      }
      if env.sessionID != fixed.sessionID {
        return Err(SessionMismatch);
      }
      var replayed := SeenContains(fixed.seen, env.messageID);
      if replayed {
        return Err(ReplayDetected);
      }
      if env.chainIndex !in keys.content {
        SharedAdvanceIs(prims, View(), env);
        r := Advance(env);
        return;
      }
      var key := keys.content[env.chainIndex];
      if |key| != KEY_SIZE {
        return Err(InvalidKeySize);
      }
      var plain := prims.cipher.open(key, env.nonce, env.ciphertext,
                                     prims.aad(fixed.sessionID, env.messageID, env.chainIndex));
      if plain.None? {
        return Err(OpenFailed);
      }
      keys.content := keys.content - {env.chainIndex};
      fixed := fixed.(seen := AppendSeen(fixed.seen, env.messageID));
      return Ok(plain.value);
    }
  }
}
