/** Keys that serve different purposes are different: a message key that is kept, or a ratchet key that goes
    out with an envelope, is never a key from which other keys are derived.

    The KDF is assumed to keep apart the purposes the code derives keys for. Nothing is assumed about
    different inputs for one purpose.
 */
module RatchetKeys {
  import opened Text
  import opened Ratchet
  import opened RatchetLink
  import opened RatchetShared

  ghost predicate Apart(kdf: (Bytes, Bytes) -> Bytes, purpose: Bytes, other: Bytes)
  {
    forall x, y :: kdf(x, purpose) != kdf(y, other)
  }

  /** A message key or a ratchet key is none of the others, whatever they are derived from. */
  ghost predicate KeepsApart(kdf: (Bytes, Bytes) -> Bytes)
  {
    && Apart(kdf, "aim/ratchet/message-key/v1", "aim/ratchet/chain-key/v1")
    && Apart(kdf, "aim/ratchet/message-key/v1", "aim/ratchet/pubkey/v1")
    && Apart(kdf, "aim/ratchet/message-key/v1", "aim/ratchet/chain/a2b/v1")
    && Apart(kdf, "aim/ratchet/message-key/v1", "aim/ratchet/chain/b2a/v1")
    && Apart(kdf, "aim/ratchet/pubkey/v1", "aim/ratchet/chain-key/v1")
    && Apart(kdf, "aim/ratchet/pubkey/v1", "aim/ratchet/chain/a2b/v1")
    && Apart(kdf, "aim/ratchet/pubkey/v1", "aim/ratchet/chain/b2a/v1")
  }

  /** Where a chain starts, in either direction, from any root key. */
  ghost predicate StartsChain(prims: Primitives, key: Bytes)
  {
    exists root :: key in {prims.kdf(root, "aim/ratchet/chain/a2b/v1"), prims.kdf(root, "aim/ratchet/chain/b2a/v1")}
  }

  /** Message keys, ratchet keys and chain keys are pairwise different. */
  ghost predicate Separate(prims: Primitives)
  {
    forall k, i, k', i' :: DerivedDiffer(prims, k, i, k', i')
  }

  ghost predicate DerivedDiffer(prims: Primitives, k: Bytes, i: U64, k': Bytes, i': U64)
  {
    && prims.messageKey(k, i) != prims.nextKey(k', i') && prims.messageKey(k, i) != prims.ratchetKey(k', i')
    && prims.ratchetKey(k, i) != prims.nextKey(k', i')
    && !StartsChain(prims, prims.messageKey(k, i)) && !StartsChain(prims, prims.ratchetKey(k, i))
  }

  /** The derivations of the code separate their keys. */
  lemma StandardSeparates(kdf: (Bytes, Bytes) -> Bytes, hash: Bytes -> Bytes, cipher: Cipher)
    requires KeepsApart(kdf)
    ensures Separate(Standard(kdf, hash, cipher))
  {
    forall k, i: U64, k', i': U64
      ensures DerivedDiffer(Standard(kdf, hash, cipher), k, i, k', i')
    {
      StandardDiffer(kdf, hash, cipher, k, i, k', i');
    }
  }

  lemma StandardDiffer(kdf: (Bytes, Bytes) -> Bytes, hash: Bytes -> Bytes, cipher: Cipher, k: Bytes, i: U64,
                       k': Bytes, i': U64)
    requires KeepsApart(kdf)
    ensures DerivedDiffer(Standard(kdf, hash, cipher), k, i, k', i')
  {
  }

  /** The KDF tells two inputs apart for each of the purposes. */
  ghost predicate Tells(kdf: (Bytes, Bytes) -> Bytes, x: Bytes, y: Bytes)
  {
    && kdf(x, "aim/ratchet/message-key/v1") != kdf(y, "aim/ratchet/message-key/v1")
    && kdf(x, "aim/ratchet/chain-key/v1") != kdf(y, "aim/ratchet/chain-key/v1")
    && kdf(x, "aim/ratchet/pubkey/v1") != kdf(y, "aim/ratchet/pubkey/v1")
  }

  ghost predicate TellsInputs(kdf: (Bytes, Bytes) -> Bytes)
  {
    forall x, y :: x != y ==> Tells(kdf, x, y)
  }

  /** Each key derived from a chain or root key binds that key and the index, as far as the KDF binds its
      input. */
  lemma DerivedKeysBind(kdf: (Bytes, Bytes) -> Bytes, hash: Bytes -> Bytes, cipher: Cipher, k: Bytes, i: U64,
                        k': Bytes, i': U64)
    requires TellsInputs(kdf) && |k| == |k'| && (k != k' || i != i')
    ensures var prims := Standard(kdf, hash, cipher);
            && prims.messageKey(k, i) != prims.messageKey(k', i')
            && prims.nextKey(k, i) != prims.nextKey(k', i')
            && prims.ratchetKey(k, i) != prims.ratchetKey(k', i')
  {
    SeedsDiffer(k, i, k', i');
    assert Tells(kdf, k + BigEndian(i, 8), k' + BigEndian(i', 8));
  }

  lemma SeedsDiffer(k: Bytes, i: U64, k': Bytes, i': U64)
    requires |k| == |k'| && (k != k' || i != i')
    ensures k + BigEndian(i, 8) != k' + BigEndian(i', 8)
  {
    var x, y := k + BigEndian(i, 8), k' + BigEndian(i', 8);
    assert k == x[..|k|] && k' == y[..|k'|];
    assert BigEndian(i, 8) == x[|k|..] && BigEndian(i', 8) == y[|k'|..];
    if BigEndian(i, 8) == BigEndian(i', 8) {
      BigEndian64Injective(i, i');
    }
  }

  /** A chain key is the start of its chain or derived as a next key. */
  lemma {:induction false} ChainKeyIs(prims: Primitives, chain: Bytes, j: U64)
    ensures var key := WalkKey(prims, chain, 0, j);
            key == chain || exists k, i :: key == prims.nextKey(k, i)
  {
    if j > 0 {
      WalkExtend(prims, chain, 0, j - 1);
    }
  }

  lemma NoChainKey(prims: Primitives, chain: Bytes, j: U64, k: Bytes, i: U64)
    requires Separate(prims) && StartsChain(prims, chain)
    ensures prims.messageKey(k, i) != WalkKey(prims, chain, 0, j)
    ensures prims.ratchetKey(k, i) != WalkKey(prims, chain, 0, j)
  {
    ChainKeyIs(prims, chain, j);
    assert DerivedDiffer(prims, k, i, k, i);
    if k', i' :| WalkKey(prims, chain, 0, j) == prims.nextKey(k', i') {
      assert DerivedDiffer(prims, k, i, k', i');
    }
  }

  /** The two chains of a session start as chains do. */
  lemma SessionChains(prims: Primitives, localID: Bytes, contactID: Bytes, key: Bytes)
    ensures var s := InitialSession(prims, localID, contactID, key);
            StartsChain(prims, s.sendKey) && StartsChain(prims, s.recvKey)
  {
  }

  /** No key kept for a message that was skipped over is a chain key of either direction, in any reachable
      state, whether the store copies its key map or shares it. */
  lemma StoredKeysAreNoChainKeys(prims: Primitives, senderID: Bytes, receiverID: Bytes, key: Bytes, steps: seq<Step>,
                                 i: nat, j: U64)
    requires prims.Sound() && Separate(prims) && senderID != receiverID
    ensures var start := Start(prims, senderID, receiverID, key);
            && (var keys := Run(prims, start, steps).receiver.skipped;
                AdmissibleRun(prims, start, steps) && i in keys ==>
                  && keys[i] != WalkKey(prims, start.sender.sendKey, 0, j)
                  && keys[i] != WalkKey(prims, start.receiver.sendKey, 0, j))
            && (var keys := SharedRun(prims, start, steps).receiver.skipped;
                SharedAdmissibleRun(prims, start, steps) && i in keys ==>
                  && keys[i] != WalkKey(prims, start.sender.sendKey, 0, j)
                  && keys[i] != WalkKey(prims, start.receiver.sendKey, 0, j))
  {
    var start := Start(prims, senderID, receiverID, key);
    var chain := start.sender.sendKey;
    SessionChains(prims, senderID, receiverID, key);
    SessionChains(prims, receiverID, senderID, key);
    if i < U64_MOD {
      NoChainKey(prims, chain, j, WalkKey(prims, chain, 0, i), i);
      NoChainKey(prims, start.receiver.sendKey, j, WalkKey(prims, chain, 0, i), i);
    }
    if AdmissibleRun(prims, start, steps) {
      SkippedKeysExact(prims, senderID, receiverID, key, steps);
    }
    if SharedAdmissibleRun(prims, start, steps) {
      SharedReachableInv(prims, senderID, receiverID, key, steps);
    }
  }

  /** Every envelope carries the ratchet key of its index. */
  ghost predicate CarryRatchetKeys(prims: Primitives, root: Bytes, link: Link)
  {
    && link.sender.rootKey == root
    && forall j :: 0 <= j < |link.sent| ==>
         link.sent[j].env.ratchetKey == prims.ratchetKey(root, link.sent[j].env.chainIndex)
  }

  lemma {:induction false} RatchetKeysCarried(prims: Primitives, link: Link, steps: seq<Step>)
    requires link.sent == []
    ensures CarryRatchetKeys(prims, link.sender.rootKey, Run(prims, link, steps))
  {
    if steps != [] {
      RatchetKeysCarried(prims, link, steps[..|steps| - 1]);
    }
  }

  /** What goes out with a message is neither a message key nor a chain key. */
  lemma RatchetKeysAreHarmless(prims: Primitives, senderID: Bytes, receiverID: Bytes, key: Bytes, steps: seq<Step>,
                               n: nat, i: U64)
    requires prims.Sound() && Separate(prims) && senderID != receiverID
    requires AdmissibleRun(prims, Start(prims, senderID, receiverID, key), steps)
    requires n < |Run(prims, Start(prims, senderID, receiverID, key), steps).sent|
    ensures var start := Start(prims, senderID, receiverID, key);
            var env := Run(prims, start, steps).sent[n].env;
            var sent := env.ratchetKey;
            && env.chainIndex == n && sent == prims.ratchetKey(start.sender.rootKey, env.chainIndex)
            && sent != KeyAt(prims, start.sender.sendKey, i) && sent != KeyAt(prims, start.receiver.sendKey, i)
            && sent != WalkKey(prims, start.sender.sendKey, 0, i)
            && sent != WalkKey(prims, start.receiver.sendKey, 0, i)
  {
    var start := Start(prims, senderID, receiverID, key);
    var link := Run(prims, start, steps);
    RatchetKeysCarried(prims, start, steps);
    ReachableInv(prims, senderID, receiverID, key, steps);
    assert Genuine(prims, start.sender.sendKey, start.sender.sessionID, n, link.sent[n]);
    SessionChains(prims, senderID, receiverID, key);
    SessionChains(prims, receiverID, senderID, key);
    assert DerivedDiffer(prims, WalkKey(prims, start.sender.sendKey, 0, i), i, start.sender.rootKey, n);
    assert DerivedDiffer(prims, WalkKey(prims, start.receiver.sendKey, 0, i), i, start.sender.rootKey, n);
    NoChainKey(prims, start.sender.sendKey, i, start.sender.rootKey, n);
    NoChainKey(prims, start.receiver.sendKey, i, start.sender.rootKey, n);
  }

  // ---------------------------------------------------------------- sessions and envelopes

  /** The sessions two contacts open with each other: one id and one root key from both contact ids in order,
      and the contact whose id comes first sends on the first chain. */
  lemma SessionsAre(prims: Primitives, a: Bytes, b: Bytes, key: Bytes)
    requires LexLess(a, b)
    ensures var id := "sess1_" + prims.digest(a + ":" + b + ":" + key);
            var root := prims.kdf(key, "aim/session/root/v1|" + (a + ":" + b));
            var a2b, b2a := prims.kdf(root, "aim/ratchet/chain/a2b/v1"), prims.kdf(root, "aim/ratchet/chain/b2a/v1");
            && InitialSession(prims, a, b, key) == Session(id, b, key, root, a2b, b2a, 0, 0, [], map[])
            && InitialSession(prims, b, a, key) == Session(id, a, key, root, b2a, a2b, 0, 0, [], map[])
  {
    LexTotal(a, b);
  }

  ghost predicate TellsAll(kdf: (Bytes, Bytes) -> Bytes)
  {
    forall x, y, i, j :: kdf(x, i) == kdf(y, j) ==> x == y && i == j
  }

  lemma ColonBinds(a: Bytes, b: Bytes, a': Bytes, b': Bytes)
    requires ':' !in a && ':' !in a' && a + ":" + b == a' + ":" + b'
    ensures a == a' && b == b'
  {
    var x, y := a + ":" + b, a' + ":" + b';
    assert x[|a|] == ':' && y[|a'|] == ':';
    assert forall n :: 0 <= n < |a| ==> x[n] == a[n] != ':';
    assert forall n :: 0 <= n < |a'| ==> y[n] == a'[n] != ':';
    assert a == x[..|a|] && a' == y[..|a'|] && b == x[|a| + 1..] && b' == y[|a'| + 1..];
  }

  /** With contact ids free of the colon between them, the root key binds the peer key and both contacts, as
      far as the KDF binds its arguments. */
  lemma RootKeyBinds(prims: Primitives, a: Bytes, b: Bytes, key: Bytes, a': Bytes, b': Bytes, key': Bytes)
    requires TellsAll(prims.kdf) && ':' !in a && ':' !in b && ':' !in a' && ':' !in b'
    requires RootKey(prims, a, b, key) == RootKey(prims, a', b', key')
    ensures key == key' && ((a == a' && b == b') || (a == b' && b == a'))
  {
    var (x, y) := NormalizeIDs(a, b);
    var (x', y') := NormalizeIDs(a', b');
    var prefix := "aim/session/root/v1|";
    assert prefix + (x + ":" + y) == prefix + (x' + ":" + y');
    assert (prefix + (x + ":" + y))[|prefix|..] == x + ":" + y;
    assert (prefix + (x' + ":" + y'))[|prefix|..] == x' + ":" + y';
    ColonBinds(x, y, x', y');
  }

  /** What a session refuses an envelope for before it looks at the ciphertext. */
  lemma RefusedFor(prims: Primitives, s: Session, env: Envelope)
    ensures var outcome := DecryptOutcome(prims, Some(s), env, NoFault);
            var incomplete := env.version == 0 || |env.nonce| != 24
                              || "" in {env.sessionID, env.messageID, env.ratchetKey, env.ciphertext};
            var foreign := env.sessionID != s.sessionID;
            var repeated := env.messageID in s.seen;
            var outOfReach := env.chainIndex !in s.skipped
                              && (env.chainIndex < s.recvIndex || env.chainIndex > s.recvIndex + 512);
            && (outcome == Err(InvalidEnvelope) <==> incomplete)
            && (outcome == Err(SessionMismatch) <==> !incomplete && foreign)
            && (outcome == Err(ReplayDetected) <==> !incomplete && !foreign && repeated)
            && (outcome == Err(InvalidChainIndex) <==> !incomplete && !foreign && !repeated && outOfReach)
  {
  }

  /** The parts of an envelope that say where it belongs. */
  lemma EnvelopeSays(prims: Primitives, s: Session, plaintext: Bytes, clock: int, nonce: Bytes)
    requires EncryptOutcome(prims, Some(s), plaintext, clock, nonce, NoFault).Ok?
    ensures var (next, env) := EncryptOutcome(prims, Some(s), plaintext, clock, nonce, NoFault).value;
            && env.version == 1 && env.sessionID == s.sessionID && env.nonce == nonce
            && env.chainIndex == s.sendIndex && env.previousCount == s.recvIndex
            && next.(sendIndex := s.sendIndex, sendKey := s.sendKey) == s
  {
  }

  // ---------------------------------------------------------------- the other direction

  function Mirror(step: Step): Step
  {
    match step
    case SenderEncrypts(p, clock, nonce, fault) => ReceiverEncrypts(p, clock, nonce, fault)
    case ReceiverEncrypts(p, clock, nonce, fault) => SenderEncrypts(p, clock, nonce, fault)
    case SenderDecrypts(env, fault) => ReceiverDecrypts(env, fault)
    case ReceiverDecrypts(env, fault) => SenderDecrypts(env, fault)
  }

  function Mirrored(steps: seq<Step>): seq<Step>
  {
    if steps == [] then [] else Mirrored(steps[..|steps| - 1]) + [Mirror(steps[|steps| - 1])]
  }

  ghost predicate Exchanged(link: Link, other: Link)
  {
    link.sender == other.receiver && link.receiver == other.sender
  }

  /** A run is the same run with the roles exchanged: whatever holds of one direction holds of the other. */
  lemma {:induction false} RolesExchange(prims: Primitives, a: Bytes, b: Bytes, key: Bytes, steps: seq<Step>)
    ensures Exchanged(Run(prims, Start(prims, a, b, key), steps), Run(prims, Start(prims, b, a, key), Mirrored(steps)))
    ensures Exchanged(SharedRun(prims, Start(prims, a, b, key), steps),
                      SharedRun(prims, Start(prims, b, a, key), Mirrored(steps)))
  {
    if steps != [] {
      var before, last := steps[..|steps| - 1], steps[|steps| - 1];
      RolesExchange(prims, a, b, key, before);
      var mirrored := Mirrored(steps);
      assert mirrored[..|mirrored| - 1] == Mirrored(before) && mirrored[|mirrored| - 1] == Mirror(last);
      StepExchanges(prims, Run(prims, Start(prims, a, b, key), before),
                    Run(prims, Start(prims, b, a, key), Mirrored(before)), last);
      SharedStepExchanges(prims, SharedRun(prims, Start(prims, a, b, key), before),
                          SharedRun(prims, Start(prims, b, a, key), Mirrored(before)), last);
    }
  }

  lemma StepExchanges(prims: Primitives, link: Link, other: Link, step: Step)
    requires Exchanged(link, other)
    ensures Exchanged(Next(prims, link, step), Next(prims, other, Mirror(step)))
  {
  }

  lemma SharedStepExchanges(prims: Primitives, link: Link, other: Link, step: Step)
    requires Exchanged(link, other)
    ensures Exchanged(SharedNext(prims, link, step), SharedNext(prims, other, Mirror(step)))
  {
  }
}
