/** Whole runs of two session managers that hold a session with each other.

    A run interleaves encryptions and decryptions on both sides in any order. Envelopes handed to
    the receiver are arbitrary: reordered, repeated, altered, made up, or never delivered at all.
    The only restriction is that the network cannot seal under a message key of the sender.
    Everything is stated for one direction; the other one is the same with the roles exchanged.
 */
module RatchetLink {
  import opened Text
  import opened Ratchet

  datatype Sent = Sent(env: Envelope, plaintext: Bytes)

  /** `sent` and `accepted` are the histories of saved encryptions and successful decryptions. */
  datatype Link = Link(sender: Session, receiver: Session, sent: seq<Sent>, accepted: seq<nat>)

  datatype Step =
    | SenderEncrypts(plaintext: Bytes, clock: int, nonce: Bytes, fault: Fault)
    | ReceiverDecrypts(env: Envelope, fault: Fault)
    | ReceiverEncrypts(plaintext: Bytes, clock: int, nonce: Bytes, fault: Fault)
    | SenderDecrypts(env: Envelope, fault: Fault)

  function Start(prims: Primitives, senderID: Bytes, receiverID: Bytes, key: Bytes): Link
  {
    Link(InitialSession(prims, senderID, receiverID, key), InitialSession(prims, receiverID, senderID, key), [], [])
  }

  ghost function Next(prims: Primitives, link: Link, step: Step): Link
  {
    match step
    case SenderEncrypts(p, clock, nonce, fault) =>
      (match EncryptOutcome(prims, Some(link.sender), p, clock, nonce, fault)
       case Ok((s, env)) => link.(sender := s, sent := link.sent + [Sent(env, p)])
       case Err(_) => link)
    case ReceiverDecrypts(env, fault) =>
      (match DecryptOutcome(prims, Some(link.receiver), env, fault)
       case Ok((s, _)) => link.(receiver := s, accepted := link.accepted + [env.chainIndex])
       case Err(_) => link)
    case ReceiverEncrypts(p, clock, nonce, fault) =>
      (match EncryptOutcome(prims, Some(link.receiver), p, clock, nonce, fault)
       case Ok((s, _)) => link.(receiver := s)
       case Err(_) => link)
    case SenderDecrypts(env, fault) =>
      (match DecryptOutcome(prims, Some(link.sender), env, fault)
       case Ok((s, _)) => link.(sender := s)
       case Err(_) => link)
  }

  ghost function Run(prims: Primitives, link: Link, steps: seq<Step>): Link
  {
    if steps == [] then link
    else Next(prims, Run(prims, link, steps[..|steps| - 1]), steps[|steps| - 1])
  }

  /** The sender's message key for index `i`, given the first key of its sending chain. */
  function KeyAt(prims: Primitives, chain: Bytes, i: U64): Bytes
  {
    prims.messageKey(WalkKey(prims, chain, 0, i), i)
  }

  /** A ciphertext sealed under one of the sender's message keys is one the sender produced. */
  ghost predicate Unforged(prims: Primitives, chain: Bytes, sent: seq<Sent>, ciphertext: Bytes)
  {
    forall i: U64, n, p, a :: ciphertext == prims.cipher.seal(KeyAt(prims, chain, i), n, p, a) ==>
      exists j :: 0 <= j < |sent| && sent[j].env.ciphertext == ciphertext
  }

  /** What a step assumes: 24-byte nonces, indices that stay clear of the 64-bit limit by one
      window, and no forgeries. */
  ghost predicate Admissible(prims: Primitives, chain: Bytes, link: Link, step: Step)
  {
    match step
    case SenderEncrypts(_, _, nonce, _) => |nonce| == NONCE_SIZE && |link.sent| + MAX_SKIPPED_CHAIN_GAP + 1 < U64_MOD
    case ReceiverDecrypts(env, _) => Unforged(prims, chain, link.sent, env.ciphertext)
    case _ => true
  }

  ghost predicate AdmissibleRun(prims: Primitives, link: Link, steps: seq<Step>)
  {
    forall k :: 0 <= k < |steps| ==> Admissible(prims, link.sender.sendKey, Run(prims, link, steps[..k]), steps[k])
  }

  // ---------------------------------------------------------------- the invariant

  /** Entry `j` of the sending history is a genuine envelope for index `j`. */
  ghost predicate Genuine(prims: Primitives, chain: Bytes, sessionID: Bytes, j: U64, s: Sent)
  {
    && ValidEnvelope(s.env)
    && s.env.sessionID == sessionID
    && s.env.chainIndex == j
    && (exists clock :: s.env.messageID == prims.messageID(clock, j))
    && s.env.ciphertext == prims.cipher.seal(KeyAt(prims, chain, j), s.env.nonce, s.plaintext,
                                      prims.aad(sessionID, s.env.messageID, j))
  }

  ghost predicate SenderInv(prims: Primitives, chain: Bytes, sessionID: Bytes, sender: Session, sent: seq<Sent>)
  {
    && |sent| + MAX_SKIPPED_CHAIN_GAP < U64_MOD
    && sender.sessionID == sessionID
    && sender.sendIndex == |sent|
    && sender.sendKey == WalkKey(prims, chain, 0, |sent|)
    && forall j :: 0 <= j < |sent| ==> Genuine(prims, chain, sessionID, j, sent[j])
  }

  /** The indices whose key the receiver must still hold. */
  predicate Missing(i: nat, recvIndex: nat, accepted: seq<nat>)
  {
    i < recvIndex && i !in accepted && recvIndex <= i + MAX_SKIPPED_CHAIN_GAP
  }

  ghost predicate KeysExact(prims: Primitives, chain: Bytes, receiver: Session, accepted: seq<nat>)
  {
    && (forall i :: i in receiver.skipped <==> Missing(i, receiver.recvIndex, accepted))
    && (forall i :: i in receiver.skipped ==> i < U64_MOD && receiver.skipped[i] == KeyAt(prims, chain, i))
  }

  ghost predicate Distinct<T>(s: seq<T>)
  {
    forall i, j :: 0 <= i < j < |s| ==> s[i] != s[j]
  }

  ghost function AcceptedIDs(link: Link): seq<Bytes>
    requires forall k :: 0 <= k < |link.accepted| ==> link.accepted[k] < |link.sent|
  {
    seq(|link.accepted|, k requires 0 <= k < |link.accepted| => link.sent[link.accepted[k]].env.messageID)
  }

  ghost predicate ReceiverInv(prims: Primitives, chain: Bytes, sessionID: Bytes, link: Link)
  {
    var r := link.receiver;
    && r.sessionID == sessionID
    && r.recvIndex <= |link.sent| < U64_MOD
    && r.recvKey == WalkKey(prims, chain, 0, r.recvIndex)
    && (forall k :: 0 <= k < |link.accepted| ==> link.accepted[k] < r.recvIndex)
    && (r.recvIndex > 0 ==> r.recvIndex - 1 in link.accepted)
    && Distinct(link.accepted)
    && KeysExact(prims, chain, r, link.accepted)
    && r.seen == LastN(AcceptedIDs(link), MAX_SEEN_MESSAGE_IDS)
  }

  ghost predicate Inv(prims: Primitives, chain: Bytes, sessionID: Bytes, link: Link)
  {
    SenderInv(prims, chain, sessionID, link.sender, link.sent) && ReceiverInv(prims, chain, sessionID, link)
  }

  // ---------------------------------------------------------------- encryption steps

  lemma SenderAdvances(prims: Primitives, chain: Bytes, sessionID: Bytes, sender: Session, sent: seq<Sent>,
                       p: Bytes, clock: int, nonce: Bytes, fault: Fault)
    requires prims.Sound() && SenderInv(prims, chain, sessionID, sender, sent) && sessionID != ""
    requires |nonce| == NONCE_SIZE && |sent| + MAX_SKIPPED_CHAIN_GAP + 1 < U64_MOD
    requires EncryptOutcome(prims, Some(sender), p, clock, nonce, fault).Ok?
    ensures var (s, env) := EncryptOutcome(prims, Some(sender), p, clock, nonce, fault).value;
            SenderInv(prims, chain, sessionID, s, sent + [Sent(env, p)])
  {
    var (s, env) := EncryptOutcome(prims, Some(sender), p, clock, nonce, fault).value;
    var id := prims.messageID(clock, |sent|);
    WalkExtend(prims, chain, 0, |sent|);
    assert Genuine(prims, chain, sessionID, |sent|, Sent(env, p));
  }

  lemma DecryptKeepsSending(prims: Primitives, s: Session, env: Envelope, fault: Fault)
    requires DecryptOutcome(prims, Some(s), env, fault).Ok?
    ensures var t := DecryptOutcome(prims, Some(s), env, fault).value.0;
            t.sessionID == s.sessionID && t.sendIndex == s.sendIndex && t.sendKey == s.sendKey
  {
  }

  // ---------------------------------------------------------------- what opens is genuine

  lemma OpenedIsGenuine(prims: Primitives, chain: Bytes, sessionID: Bytes, sent: seq<Sent>, env: Envelope)
    requires prims.Sound() && Unforged(prims, chain, sent, env.ciphertext)
    requires |sent| < U64_MOD
    requires forall j :: 0 <= j < |sent| ==> Genuine(prims, chain, sessionID, j, sent[j])
    requires prims.cipher.open(KeyAt(prims, chain, env.chainIndex), env.nonce, env.ciphertext,
                        prims.aad(sessionID, env.messageID, env.chainIndex)).Some?
    ensures env.chainIndex < |sent|
    ensures var s := sent[env.chainIndex];
            && s.env.messageID == env.messageID && s.env.nonce == env.nonce && s.env.ciphertext == env.ciphertext
            && prims.cipher.open(KeyAt(prims, chain, env.chainIndex), env.nonce, env.ciphertext,
                          prims.aad(sessionID, env.messageID, env.chainIndex)) == Some(s.plaintext)
  {
    var key, ad := KeyAt(prims, chain, env.chainIndex), prims.aad(sessionID, env.messageID, env.chainIndex);
    var p := prims.cipher.open(key, env.nonce, env.ciphertext, ad).value;
    assert env.ciphertext == prims.cipher.seal(key, env.nonce, p, ad);
    var j :| 0 <= j < |sent| && sent[j].env.ciphertext == env.ciphertext;
    var s := sent[j];
    assert Genuine(prims, chain, sessionID, j, s);
    assert prims.cipher.seal(key, env.nonce, p, ad)
        == prims.cipher.seal(KeyAt(prims, chain, j), s.env.nonce, s.plaintext,
                             prims.aad(sessionID, s.env.messageID, j));
  }

  // ---------------------------------------------------------------- skipped keys across a forward step

  lemma FilledKeys(prims: Primitives, chain: Bytes, r: Session, accepted: seq<nat>, index: U64, i: nat)
    requires KeysExact(prims, chain, r, accepted) && r.recvKey == WalkKey(prims, chain, 0, r.recvIndex)
    requires r.recvIndex <= index
    ensures i in Filled(prims, r, index) <==> Missing(i, r.recvIndex, accepted) || r.recvIndex <= i < index
    ensures i in Filled(prims, r, index) ==> i < U64_MOD && Filled(prims, r, index)[i] == KeyAt(prims, chain, i)
  {
    GapKeysAt(prims, r.recvKey, r.recvIndex, index, i);
    if r.recvIndex <= i < index {
      WalkCompose(prims, chain, 0, r.recvIndex, i);
    }
  }

  /** Gap keys and kept keys together never come near the cap of 2048. */
  lemma FilledIsSmall(prims: Primitives, chain: Bytes, r: Session, accepted: seq<nat>, index: U64)
    requires KeysExact(prims, chain, r, accepted) && r.recvKey == WalkKey(prims, chain, 0, r.recvIndex)
    requires r.recvIndex <= index <= r.recvIndex + MAX_SKIPPED_CHAIN_GAP
    ensures |Filled(prims, r, index)| <= 2 * MAX_SKIPPED_CHAIN_GAP < MAX_SKIPPED_MESSAGE_KEYS
  {
    var keys := Filled(prims, r, index).Keys;
    var lo := if r.recvIndex < MAX_SKIPPED_CHAIN_GAP then 0 else r.recvIndex - MAX_SKIPPED_CHAIN_GAP;
    forall i | i in keys
      ensures lo <= i < index
    {
      FilledKeys(prims, chain, r, accepted, index, i);
    }
    BoundedSetSize(keys, lo, index);
  }

  lemma PrunedSmall(keys: map<nat, Bytes>, recvIndex: nat)
    requires |keys| <= MAX_SKIPPED_MESSAGE_KEYS
    ensures Pruned(keys, recvIndex, MAX_SKIPPED_MESSAGE_KEYS) == InWindow(keys, recvIndex)
    ensures |InWindow(keys, recvIndex)| <= |keys|
  {
    SubsetSize(InWindow(keys, recvIndex).Keys, keys.Keys);
    NewestOfFew(InWindow(keys, recvIndex), MAX_SKIPPED_MESSAGE_KEYS);
  }

  lemma PrunedTwice(keys: map<nat, Bytes>, a: nat, b: nat)
    requires |keys| <= MAX_SKIPPED_MESSAGE_KEYS
    ensures Pruned(Pruned(keys, a, MAX_SKIPPED_MESSAGE_KEYS), b, MAX_SKIPPED_MESSAGE_KEYS)
            == InWindow(InWindow(keys, a), b)
  {
    PrunedSmall(keys, a);
    PrunedSmall(InWindow(keys, a), b);
  }

  /** So receiving drops what leaves the window and nothing else. */
  lemma CapNeverFires(prims: Primitives, chain: Bytes, r: Session, accepted: seq<nat>, index: U64)
    requires KeysExact(prims, chain, r, accepted) && r.recvKey == WalkKey(prims, chain, 0, r.recvIndex)
    requires r.recvIndex <= index <= r.recvIndex + MAX_SKIPPED_CHAIN_GAP
    ensures KeysAfter(prims, r, index)
         == InWindow(InWindow(Filled(prims, r, index), r.recvIndex), (index + 1) % U64_MOD)
  {
    FilledIsSmall(prims, chain, r, accepted, index);
    PrunedTwice(Filled(prims, r, index), r.recvIndex, (index + 1) % U64_MOD);
  }

  lemma WindowStep(filled: map<nat, Bytes>, recvIndex: nat, index: nat, accepted: seq<nat>, i: nat)
    requires recvIndex <= index && index + 1 + MAX_SKIPPED_CHAIN_GAP < U64_MOD
    requires i in filled <==> Missing(i, recvIndex, accepted) || recvIndex <= i < index
    requires i in accepted ==> i < recvIndex
    ensures var kept := InWindow(InWindow(filled, recvIndex), index + 1);
            && (i in kept <==> Missing(i, index + 1, accepted + [index]))
            && (i in kept ==> kept[i] == filled[i])
  {
    assert i in accepted + [index] <==> i in accepted || i == index;
    if i in filled {
      assert (i + MAX_SKIPPED_CHAIN_GAP) % U64_MOD == i + MAX_SKIPPED_CHAIN_GAP;
    }
  }

  lemma KeyAfter(prims: Primitives, chain: Bytes, r: Session, accepted: seq<nat>, index: U64, i: nat)
    requires KeysExact(prims, chain, r, accepted) && r.recvKey == WalkKey(prims, chain, 0, r.recvIndex)
    requires r.recvIndex <= index <= r.recvIndex + MAX_SKIPPED_CHAIN_GAP
    requires index + 1 + MAX_SKIPPED_CHAIN_GAP < U64_MOD
    requires forall k :: 0 <= k < |accepted| ==> accepted[k] < r.recvIndex
    ensures var kept := InWindow(InWindow(Filled(prims, r, index), r.recvIndex), index + 1);
            && (i in kept <==> Missing(i, index + 1, accepted + [index]))
            && (i in kept ==> i < U64_MOD && kept[i] == KeyAt(prims, chain, i))
  {
    FilledKeys(prims, chain, r, accepted, index, i);
    WindowStep(Filled(prims, r, index), r.recvIndex, index, accepted, i);
  }

  lemma ForwardKeys(prims: Primitives, chain: Bytes, r: Session, accepted: seq<nat>, index: U64, after: Session)
    requires KeysExact(prims, chain, r, accepted) && r.recvKey == WalkKey(prims, chain, 0, r.recvIndex)
    requires r.recvIndex <= index <= r.recvIndex + MAX_SKIPPED_CHAIN_GAP
    requires index + 1 + MAX_SKIPPED_CHAIN_GAP < U64_MOD
    requires forall k :: 0 <= k < |accepted| ==> accepted[k] < r.recvIndex
    requires after.recvIndex == index + 1
    requires after.skipped == InWindow(InWindow(Filled(prims, r, index), r.recvIndex), index + 1)
    ensures KeysExact(prims, chain, after, accepted + [index])
  {
    forall i: nat
      ensures i in after.skipped <==> Missing(i, index + 1, accepted + [index])
      ensures i in after.skipped ==> i < U64_MOD && after.skipped[i] == KeyAt(prims, chain, i)
    {
      KeyAfter(prims, chain, r, accepted, index, i);
    }
  }

  // ---------------------------------------------------------------- decryption steps

  /** `env` is the envelope sent for its index up to the fields that are not authenticated, and
      `plaintext` is what was sent. */
  ghost predicate Delivery(sent: seq<Sent>, env: Envelope, plaintext: Bytes)
  {
    && env.chainIndex < |sent|
    && var s := sent[env.chainIndex];
       && s.env.messageID == env.messageID && s.env.nonce == env.nonce && s.env.ciphertext == env.ciphertext
       && plaintext == s.plaintext
  }

  /** A delivery of a message that has not been accepted before. */
  ghost predicate FirstDelivery(link: Link, env: Envelope, plaintext: Bytes)
  {
    env.chainIndex !in link.accepted && Delivery(link.sent, env, plaintext)
  }

  ghost function Accept(link: Link, env: Envelope, receiver: Session): Link
  {
    link.(receiver := receiver, accepted := link.accepted + [env.chainIndex])
  }

  lemma SeenStep(link: Link, env: Envelope, receiver: Session)
    requires forall k :: 0 <= k < |link.accepted| ==> link.accepted[k] < |link.sent|
    requires env.chainIndex < |link.sent| && link.sent[env.chainIndex].env.messageID == env.messageID
    requires link.receiver.seen == LastN(AcceptedIDs(link), MAX_SEEN_MESSAGE_IDS)
    ensures AppendSeen(link.receiver.seen, env.messageID)
         == LastN(AcceptedIDs(Accept(link, env, receiver)), MAX_SEEN_MESSAGE_IDS)
  {
    var ids := AcceptedIDs(link);
    assert AcceptedIDs(Accept(link, env, receiver)) == ids + [env.messageID];
  }

  /** Taking out the key of an index that has now been accepted. */
  lemma UsedKey(prims: Primitives, chain: Bytes, r: Session, accepted: seq<nat>, i: nat, after: Session)
    requires KeysExact(prims, chain, r, accepted) && i in r.skipped
    requires after.recvIndex == r.recvIndex && after.skipped == r.skipped - {i}
    ensures KeysExact(prims, chain, after, accepted + [i])
  {
    assert forall j :: j in accepted + [i] <==> j in accepted || j == i;
  }

  lemma AcceptSkipped(prims: Primitives, chain: Bytes, sessionID: Bytes, link: Link, env: Envelope, p: Bytes,
                      after: Session)
    requires prims.Sound() && Inv(prims, chain, sessionID, link) && Unforged(prims, chain, link.sent, env.ciphertext)
    requires env.chainIndex in link.receiver.skipped
    requires prims.cipher.open(link.receiver.skipped[env.chainIndex], env.nonce, env.ciphertext,
                        prims.aad(sessionID, env.messageID, env.chainIndex)) == Some(p)
    requires after == link.receiver.(skipped := link.receiver.skipped - {env.chainIndex},
                                     seen := AppendSeen(link.receiver.seen, env.messageID))
    ensures FirstDelivery(link, env, p)
    ensures ReceiverInv(prims, chain, sessionID, Accept(link, env, after))
  {
    OpenedIsGenuine(prims, chain, sessionID, link.sent, env);
    SeenStep(link, env, after);
    UsedKey(prims, chain, link.receiver, link.accepted, env.chainIndex, after);
  }

  lemma AcceptForward(prims: Primitives, chain: Bytes, sessionID: Bytes, link: Link, env: Envelope, p: Bytes,
                      after: Session)
    requires prims.Sound() && Inv(prims, chain, sessionID, link) && Unforged(prims, chain, link.sent, env.ciphertext)
    requires link.receiver.recvIndex <= env.chainIndex <= link.receiver.recvIndex + MAX_SKIPPED_CHAIN_GAP
    requires prims.cipher.open(KeyAt(prims, chain, env.chainIndex), env.nonce, env.ciphertext,
                        prims.aad(sessionID, env.messageID, env.chainIndex)) == Some(p)
    requires after.recvIndex == (env.chainIndex + 1) % U64_MOD
    requires after == link.receiver.(
      recvKey := prims.nextKey(WalkKey(prims, chain, 0, env.chainIndex), env.chainIndex),
      recvIndex := after.recvIndex,
      skipped := InWindow(InWindow(Filled(prims, link.receiver, env.chainIndex), link.receiver.recvIndex),
                          after.recvIndex),
      seen := AppendSeen(link.receiver.seen, env.messageID))
    ensures FirstDelivery(link, env, p)
    ensures ReceiverInv(prims, chain, sessionID, Accept(link, env, after))
  {
    OpenedIsGenuine(prims, chain, sessionID, link.sent, env);
    SeenStep(link, env, after);
    WalkExtend(prims, chain, 0, env.chainIndex);
    ForwardKeys(prims, chain, link.receiver, link.accepted, env.chainIndex, after);
  }

  lemma AdvanceAccepts(prims: Primitives, chain: Bytes, sessionID: Bytes, link: Link, env: Envelope, fault: Fault)
    requires prims.Sound() && Inv(prims, chain, sessionID, link) && Unforged(prims, chain, link.sent, env.ciphertext)
    requires AdvanceOutcome(prims, link.receiver, env, fault).Ok?
    ensures var (after, p) := AdvanceOutcome(prims, link.receiver, env, fault).value;
            FirstDelivery(link, env, p) && ReceiverInv(prims, chain, sessionID, Accept(link, env, after))
  {
    var r := link.receiver;
    var (after, p) := AdvanceOutcome(prims, r, env, fault).value;
    WalkCompose(prims, chain, 0, r.recvIndex, env.chainIndex);
    CapNeverFires(prims, chain, r, link.accepted, env.chainIndex);
    AcceptForward(prims, chain, sessionID, link, env, p, after);
  }

  /** Whatever the receiver accepts is a first delivery, and accepting it keeps the invariant. */
  lemma DecryptAccepts(prims: Primitives, chain: Bytes, sessionID: Bytes, link: Link, env: Envelope, fault: Fault)
    requires prims.Sound() && Inv(prims, chain, sessionID, link) && Unforged(prims, chain, link.sent, env.ciphertext)
    requires DecryptOutcome(prims, Some(link.receiver), env, fault).Ok?
    ensures var (after, p) := DecryptOutcome(prims, Some(link.receiver), env, fault).value;
            FirstDelivery(link, env, p) && ReceiverInv(prims, chain, sessionID, Accept(link, env, after))
  {
    if env.chainIndex in link.receiver.skipped {
      var (after, p) := DecryptOutcome(prims, Some(link.receiver), env, fault).value;
      AcceptSkipped(prims, chain, sessionID, link, env, p, after);
    } else {
      AdvanceAccepts(prims, chain, sessionID, link, env, fault);
    }
  }

  // ---------------------------------------------------------------- whole runs

  lemma StepKeepsInv(prims: Primitives, chain: Bytes, sessionID: Bytes, link: Link, step: Step)
    requires prims.Sound() && Inv(prims, chain, sessionID, link) && sessionID != ""
    requires Admissible(prims, chain, link, step)
    ensures Inv(prims, chain, sessionID, Next(prims, link, step))
  {
    match step
    case SenderEncrypts(p, clock, nonce, fault) =>
      if EncryptOutcome(prims, Some(link.sender), p, clock, nonce, fault).Ok? {
        SenderAdvances(prims, chain, sessionID, link.sender, link.sent, p, clock, nonce, fault);
        HistoryGrows(prims, chain, sessionID, link, Next(prims, link, step));
      }
    case ReceiverDecrypts(env, fault) =>
      if DecryptOutcome(prims, Some(link.receiver), env, fault).Ok? {
        DecryptAccepts(prims, chain, sessionID, link, env, fault);
      }
    case ReceiverEncrypts(_, _, _, _) =>
    case SenderDecrypts(env, fault) =>
      if DecryptOutcome(prims, Some(link.sender), env, fault).Ok? {
        DecryptKeepsSending(prims, link.sender, env, fault);
      }
  }

  lemma HistoryGrows(prims: Primitives, chain: Bytes, sessionID: Bytes, link: Link, longer: Link)
    requires ReceiverInv(prims, chain, sessionID, link)
    requires longer.receiver == link.receiver && longer.accepted == link.accepted
    requires link.sent <= longer.sent && |longer.sent| < U64_MOD
    ensures ReceiverInv(prims, chain, sessionID, longer)
  {
    assert AcceptedIDs(longer) == AcceptedIDs(link);
  }

  lemma {:induction false} ReachableInv(prims: Primitives, senderID: Bytes, receiverID: Bytes, key: Bytes,
                                        steps: seq<Step>)
    requires prims.Sound() && senderID != receiverID
    requires AdmissibleRun(prims, Start(prims, senderID, receiverID, key), steps)
    ensures var start := Start(prims, senderID, receiverID, key);
            Inv(prims, start.sender.sendKey, start.sender.sessionID, Run(prims, start, steps))
  {
    var start := Start(prims, senderID, receiverID, key);
    if steps == [] {
      InitialSessionsCross(prims, senderID, receiverID, key);
    } else {
      var before := steps[..|steps| - 1];
      assert forall k :: 0 <= k <= |before| ==> before[..k] == steps[..k];
      ReachableInv(prims, senderID, receiverID, key, before);
      assert start.sender.sessionID[0] == 's';
      StepKeepsInv(prims, start.sender.sendKey, start.sender.sessionID, Run(prims, start, before), steps[|steps| - 1]);
    }
  }

  lemma FewKeys(prims: Primitives, chain: Bytes, sessionID: Bytes, link: Link)
    requires ReceiverInv(prims, chain, sessionID, link)
    ensures |link.receiver.skipped| <= MAX_SKIPPED_CHAIN_GAP - 1
  {
    var r := link.receiver;
    if r.recvIndex > 0 {
      var lo := if r.recvIndex < MAX_SKIPPED_CHAIN_GAP then 0 else r.recvIndex - MAX_SKIPPED_CHAIN_GAP;
      BoundedSetSize(r.skipped.Keys, lo, r.recvIndex - 1);
    } else {
      assert r.skipped.Keys == {};
    }
  }

  /** In every reachable state the stored keys are exactly those of the indices below the receiving
      index, not yet accepted, and at most 512 behind; each is the right key. No index is accepted
      twice, and at most 511 keys are stored. */
  lemma SkippedKeysExact(prims: Primitives, senderID: Bytes, receiverID: Bytes, key: Bytes, steps: seq<Step>)
    requires prims.Sound() && senderID != receiverID
    requires AdmissibleRun(prims, Start(prims, senderID, receiverID, key), steps)
    ensures var start := Start(prims, senderID, receiverID, key);
            var link := Run(prims, start, steps);
            && KeysExact(prims, start.sender.sendKey, link.receiver, link.accepted)
            && Distinct(link.accepted)
            && |link.receiver.skipped| <= MAX_SKIPPED_CHAIN_GAP - 1
  {
    ReachableInv(prims, senderID, receiverID, key, steps);
    var start := Start(prims, senderID, receiverID, key);
    FewKeys(prims, start.sender.sendKey, start.sender.sessionID, Run(prims, start, steps));
  }

  /** Anything the receiver ever accepts is the first delivery of a message the sender sent. */
  lemma OnlySentMessagesOpen(prims: Primitives, senderID: Bytes, receiverID: Bytes, key: Bytes, steps: seq<Step>,
                             env: Envelope, fault: Fault)
    requires prims.Sound() && senderID != receiverID
    requires AdmissibleRun(prims, Start(prims, senderID, receiverID, key), steps)
    requires var start := Start(prims, senderID, receiverID, key);
             Unforged(prims, start.sender.sendKey, Run(prims, start, steps).sent, env.ciphertext)
    ensures var link := Run(prims, Start(prims, senderID, receiverID, key), steps);
            var outcome := DecryptOutcome(prims, Some(link.receiver), env, fault);
            outcome.Ok? ==> FirstDelivery(link, env, outcome.value.1)
  {
    ReachableInv(prims, senderID, receiverID, key, steps);
    var start := Start(prims, senderID, receiverID, key);
    var link := Run(prims, start, steps);
    if DecryptOutcome(prims, Some(link.receiver), env, fault).Ok? {
      DecryptAccepts(prims, start.sender.sendKey, start.sender.sessionID, link, env, fault);
    }
  }

  // ---------------------------------------------------------------- delivery

  predicate InReach(i: nat, recvIndex: nat)
  {
    if recvIndex <= i then i - recvIndex <= MAX_SKIPPED_CHAIN_GAP else recvIndex <= i + MAX_SKIPPED_CHAIN_GAP
  }

  lemma UnacceptedIsUnseen(prims: Primitives, chain: Bytes, sessionID: Bytes, link: Link, i: nat)
    requires prims.Sound() && SenderInv(prims, chain, sessionID, link.sender, link.sent)
    requires forall k :: 0 <= k < |link.accepted| ==> link.accepted[k] < |link.sent|
    requires link.receiver.seen == LastN(AcceptedIDs(link), MAX_SEEN_MESSAGE_IDS)
    requires i < |link.sent| && i !in link.accepted
    ensures link.sent[i].env.messageID !in link.receiver.seen
  {
    assert Genuine(prims, chain, sessionID, i, link.sent[i]);
    var ids := AcceptedIDs(link);
    forall k | 0 <= k < |ids|
      ensures ids[k] != link.sent[i].env.messageID
    {
      var j := link.accepted[k];
      assert Genuine(prims, chain, sessionID, j, link.sent[j]);
    }
  }

  lemma DeliverSkipped(prims: Primitives, chain: Bytes, sessionID: Bytes, link: Link, i: nat)
    requires prims.Sound() && Inv(prims, chain, sessionID, link)
    requires i < |link.sent| && i < link.receiver.recvIndex
    requires link.sent[i].env.messageID !in link.receiver.seen
    ensures var outcome := DecryptOutcome(prims, Some(link.receiver), link.sent[i].env, NoFault);
            if Missing(i, link.receiver.recvIndex, link.accepted)
            then outcome.Ok? && outcome.value.1 == link.sent[i].plaintext
            else outcome.Err?
  {
    assert Genuine(prims, chain, sessionID, i, link.sent[i]);
  }

  lemma DeliverForward(prims: Primitives, chain: Bytes, sessionID: Bytes, link: Link, i: nat)
    requires prims.Sound() && Inv(prims, chain, sessionID, link)
    requires i < |link.sent| && link.receiver.recvIndex <= i
    requires link.sent[i].env.messageID !in link.receiver.seen
    ensures var outcome := DecryptOutcome(prims, Some(link.receiver), link.sent[i].env, NoFault);
            if i - link.receiver.recvIndex <= MAX_SKIPPED_CHAIN_GAP
            then outcome.Ok? && outcome.value.1 == link.sent[i].plaintext
            else outcome.Err?
  {
    assert Genuine(prims, chain, sessionID, i, link.sent[i]);
    WalkCompose(prims, chain, 0, link.receiver.recvIndex, i);
  }

  /** In every reachable state, handing message `i` to the receiver returns exactly its plaintext if
      and only if it has not been accepted yet and lies within reach of the receiving index. */
  lemma DeliveryExact(prims: Primitives, senderID: Bytes, receiverID: Bytes, key: Bytes, steps: seq<Step>, i: nat)
    requires prims.Sound() && senderID != receiverID
    requires AdmissibleRun(prims, Start(prims, senderID, receiverID, key), steps)
    requires i < |Run(prims, Start(prims, senderID, receiverID, key), steps).sent|
    ensures var link := Run(prims, Start(prims, senderID, receiverID, key), steps);
            var outcome := DecryptOutcome(prims, Some(link.receiver), link.sent[i].env, NoFault);
            && (outcome.Ok? <==> i !in link.accepted && InReach(i, link.receiver.recvIndex))
            && (outcome.Ok? ==> outcome.value.1 == link.sent[i].plaintext)
  {
    ReachableInv(prims, senderID, receiverID, key, steps);
    var start := Start(prims, senderID, receiverID, key);
    var chain, sessionID, link := start.sender.sendKey, start.sender.sessionID, Run(prims, start, steps);
    if link.sent[i].env.messageID in link.receiver.seen {
      if i !in link.accepted {
        UnacceptedIsUnseen(prims, chain, sessionID, link, i);
      }
    } else if i < link.receiver.recvIndex {
      DeliverSkipped(prims, chain, sessionID, link, i);
    } else {
      DeliverForward(prims, chain, sessionID, link, i);
    }
  }
}
