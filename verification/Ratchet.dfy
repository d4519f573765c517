/** The per-contact message ratchet: two crossed KDF chains, message keys, and a bounded store of
    keys for messages that have been skipped over.

    The cryptographic primitives are parameters. Everything is stated for every choice of them;
    the results that need cryptographic strength assume `Primitives.Sound`.
 */
module Ratchet {
  import opened Text

  const MAX_SEEN_MESSAGE_IDS: nat := 1024
  const MAX_SKIPPED_CHAIN_GAP: nat := 512
  const MAX_SKIPPED_MESSAGE_KEYS: nat := 2048
  const KEY_SIZE: nat := 32
  const NONCE_SIZE: nat := 24

  /** An authenticated cipher: `seal` takes key, nonce, plaintext and associated data; `open` takes
      key, nonce, ciphertext and associated data. */
  datatype Cipher = Cipher(
    seal: (Bytes, Bytes, Bytes, Bytes) -> Bytes,
    open: (Bytes, Bytes, Bytes, Bytes) -> Option<Bytes>
  ) {
    /** Opening undoes sealing, and succeeds only on a ciphertext sealed with the same key, nonce
        and associated data. */
    ghost predicate Ideal() {
      && (forall k, n, p, a :: seal(k, n, p, a) != "" && open(k, n, seal(k, n, p, a), a) == Some(p))
      && (forall k, n, c, a :: open(k, n, c, a).Some? ==> c == seal(k, n, open(k, n, c, a).value, a))
      && (forall k, n, p, a, k', n', p', a' ::
            seal(k, n, p, a) == seal(k', n', p', a') ==> k == k' && n == n' && a == a')
    }
  }

  /** The functions a session is built from: the KDF on input and info, the hexadecimal digest behind
      a session id, the derivations from a key and a chain index, message ids from clock and index, the
      associated data of an envelope, and the cipher. */
  datatype Primitives = Primitives(
    kdf: (Bytes, Bytes) -> Bytes,
    digest: Bytes -> Bytes,
    messageKey: (Bytes, U64) -> Bytes,
    nextKey: (Bytes, U64) -> Bytes,
    ratchetKey: (Bytes, U64) -> Bytes,
    messageID: (int, U64) -> Bytes,
    aad: (Bytes, Bytes, U64) -> Bytes,
    cipher: Cipher
  ) {
    /** What the results about whole runs need; `StandardIsSound` derives it for the code's own
        choices from an ideal cipher and a 32-byte KDF. */
    ghost predicate Sound() {
      && cipher.Ideal()
      && (forall k, i :: |messageKey(k, i)| == KEY_SIZE && |ratchetKey(k, i)| == KEY_SIZE)
      && (forall t, i :: messageID(t, i) != "")
      && (forall t, i, t', i' :: messageID(t, i) == messageID(t', i') ==> i == i')
      && (forall s, m, i, m', i' :: aad(s, m, i) == aad(s, m', i') ==> m == m' && i == i')
    }
  }

  function Prefix(b: Bytes, n: nat): Bytes
  {
    if |b| <= n then b else b[..n]
  }

  /** The derivations, ids and associated data the code uses, given KDF, hash and cipher. */
  function Standard(kdf: (Bytes, Bytes) -> Bytes, hash: Bytes -> Bytes, cipher: Cipher): Primitives
  {
    Primitives(kdf,
               (input: Bytes) => Hex(Prefix(hash(input), 16)),
               (key: Bytes, index: U64) => kdf(key + BigEndian(index, 8), "aim/ratchet/message-key/v1"),
               (key: Bytes, index: U64) => kdf(key + BigEndian(index, 8), "aim/ratchet/chain-key/v1"),
               (key: Bytes, index: U64) => kdf(key + BigEndian(index, 8), "aim/ratchet/pubkey/v1"),
               (clock: int, index: U64) => MessageID(clock, index),
               (sessionID: Bytes, messageID: Bytes, index: U64) => EnvelopeAAD(sessionID, messageID, index),
               cipher)
  }

  datatype Error =
    | InvalidContact | InvalidPeerKey | SessionNotFound | SessionMismatch | ReplayDetected
    | InvalidChainIndex | InvalidEnvelope | InvalidKeySize | OpenFailed
    | RandomFailed | LoadFailed | SaveFailed

  datatype Result<+T> = Ok(value: T) | Err(error: Error)

  /** Which of the fallible calls into the environment fails during one operation. */
  datatype Fault = NoFault | RandomFault | LoadFault | SaveFault

  datatype Session = Session(
    sessionID: Bytes,
    contactID: Bytes,
    peerKey: Bytes,
    rootKey: Bytes,
    sendKey: Bytes,
    recvKey: Bytes,
    sendIndex: U64,
    recvIndex: U64,
    seen: seq<Bytes>,
    skipped: map<nat, Bytes>
  )

  datatype Envelope = Envelope(
    version: nat,
    sessionID: Bytes,
    messageID: Bytes,
    ratchetKey: Bytes,
    chainIndex: U64,
    previousCount: U64,
    nonce: Bytes,
    ciphertext: Bytes
  )

  // ---------------------------------------------------------------- key derivation

  function NormalizeIDs(a: Bytes, b: Bytes): (Bytes, Bytes)
  {
    if LexAtMost(a, b) then (a, b) else (b, a)
  }

  function RootKey(prims: Primitives, localID: Bytes, contactID: Bytes, peerKey: Bytes): Bytes
  {
    var (a, b) := NormalizeIDs(localID, contactID);
    prims.kdf(peerKey, "aim/session/root/v1|" + (a + ":" + b))
  }

  function SessionID(prims: Primitives, localID: Bytes, contactID: Bytes, peerKey: Bytes): Bytes
  {
    var (a, b) := NormalizeIDs(localID, contactID);
    "sess1_" + prims.digest(a + ":" + b + ":" + peerKey)
  }

  /** The first sending and receiving chain keys, in that order. */
  function InitialChainKeys(prims: Primitives, rootKey: Bytes, localID: Bytes, contactID: Bytes): (Bytes, Bytes)
  {
    var a2b := prims.kdf(rootKey, "aim/ratchet/chain/a2b/v1");
    var b2a := prims.kdf(rootKey, "aim/ratchet/chain/b2a/v1");
    if localID == NormalizeIDs(localID, contactID).0 then (a2b, b2a) else (b2a, a2b)
  }

  function EnvelopeAAD(sessionID: Bytes, messageID: Bytes, index: U64): Bytes
  {
    sessionID + ['\0'] + messageID + ['\0'] + BigEndian(index, 8)
  }

  function MessageID(clock: int, index: nat): Bytes
  {
    "dr_" + SignedDecimal(clock) + ['_'] + Decimal(index)
  }

  /** The chain key at `index` when the chain key at `start` is `key`. */
  function WalkKey(prims: Primitives, key: Bytes, start: nat, index: U64): Bytes
    requires start <= index
    decreases index - start
  {
    if index == start then key else WalkKey(prims, prims.nextKey(key, start), start + 1, index)
  }

  /** The message keys of all indices from `start` up to but excluding `end`. */
  function GapKeys(prims: Primitives, key: Bytes, start: nat, end: U64): map<nat, Bytes>
    requires start <= end
    decreases end - start
  {
    if start == end then map[]
    else map[start := prims.messageKey(key, start)] + GapKeys(prims, prims.nextKey(key, start), start + 1, end)
  }

  // ---------------------------------------------------------------- what identifies a message

  /** Within one session the associated data determines message id and index. */
  lemma EnvelopeAADBinds(sessionID: Bytes, m: Bytes, i: U64, m': Bytes, i': U64)
    requires EnvelopeAAD(sessionID, m, i) == EnvelopeAAD(sessionID, m', i')
    ensures m == m' && i == i'
  {
    var x, y := EnvelopeAAD(sessionID, m, i), EnvelopeAAD(sessionID, m', i');
    assert x[|x| - 8..] == BigEndian(i, 8) && y[|y| - 8..] == BigEndian(i', 8);
    BigEndian64Injective(i, i');
    assert x[|sessionID| + 1..|x| - 9] == m && y[|sessionID| + 1..|y| - 9] == m';
  }

  /** Across sessions it determines the session as well, provided session ids hold no NUL byte. */
  lemma EnvelopeAADBindsSession(s: Bytes, m: Bytes, i: U64, s': Bytes, m': Bytes, i': U64)
    requires '\0' !in s && '\0' !in s'
    requires EnvelopeAAD(s, m, i) == EnvelopeAAD(s', m', i')
    ensures s == s' && m == m' && i == i'
  {
    var x := EnvelopeAAD(s, m, i);
    var y := EnvelopeAAD(s', m', i');
    assert x[|s|] == '\0' && forall k :: 0 <= k < |s| ==> x[k] == s[k] != '\0';
    assert y[|s'|] == '\0' && forall k :: 0 <= k < |s'| ==> y[k] == s'[k] != '\0';
    assert x[..|s|] == s && y[..|s'|] == s';
    EnvelopeAADBinds(s, m, i, m', i');
  }

  /** The session ids of the code hold none, so its associated data always determines the session, the
      message id and the index. */
  lemma BuiltAADBinds(kdf: (Bytes, Bytes) -> Bytes, hash: Bytes -> Bytes, cipher: Cipher,
                      a: Bytes, b: Bytes, key: Bytes, m: Bytes, i: U64,
                      a': Bytes, b': Bytes, key': Bytes, m': Bytes, i': U64)
    requires var prims := Standard(kdf, hash, cipher);
             EnvelopeAAD(SessionID(prims, a, b, key), m, i) == EnvelopeAAD(SessionID(prims, a', b', key'), m', i')
    ensures var prims := Standard(kdf, hash, cipher);
            SessionID(prims, a, b, key) == SessionID(prims, a', b', key') && m == m' && i == i'
  {
    var prims := Standard(kdf, hash, cipher);
    BuiltIDHasNoNul(kdf, hash, cipher, a, b, key);
    BuiltIDHasNoNul(kdf, hash, cipher, a', b', key');
    EnvelopeAADBindsSession(SessionID(prims, a, b, key), m, i, SessionID(prims, a', b', key'), m', i');
  }

  lemma BuiltIDHasNoNul(kdf: (Bytes, Bytes) -> Bytes, hash: Bytes -> Bytes, cipher: Cipher, a: Bytes, b: Bytes,
                        key: Bytes)
    ensures '\0' !in SessionID(Standard(kdf, hash, cipher), a, b, key)
  {
    var (x, y) := NormalizeIDs(a, b);
    HexIsPrintable(Prefix(hash(x + ":" + y + ":" + key), 16));
  }

  /** No other session id, message id and index give the same associated data. */
  ghost predicate OnlyAAD(s: Bytes, m: Bytes, i: U64)
  {
    forall s', m', i': U64 :: EnvelopeAAD(s', m', i') == EnvelopeAAD(s, m, i) ==> s' == s && m' == m && i' == i
  }

  /** For arbitrary ids that is so exactly when neither of them holds a NUL byte. */
  lemma OnlyAADIff(s: Bytes, m: Bytes, i: U64)
    ensures OnlyAAD(s, m, i) <==> '\0' !in s && '\0' !in m
  {
    if '\0' in s {
      var k :| 0 <= k < |s| && s[k] == '\0';
      OtherSplit(s[..k], s[k + 1..], m, i);
      assert s == s[..k] + ['\0'] + s[k + 1..];
      assert EnvelopeAAD(s[..k], s[k + 1..] + ['\0'] + m, i) == EnvelopeAAD(s, m, i);
    } else if '\0' in m {
      var k :| 0 <= k < |m| && m[k] == '\0';
      OtherSplit(s, m[..k], m[k + 1..], i);
      assert m == m[..k] + ['\0'] + m[k + 1..];
      assert EnvelopeAAD(s + ['\0'] + m[..k], m[k + 1..], i) == EnvelopeAAD(s, m, i);
    } else {
      forall s', m', i': U64 | EnvelopeAAD(s', m', i') == EnvelopeAAD(s, m, i)
        ensures s' == s && m' == m && i' == i
      {
        SameSplit(s, m, i, s', m', i');
      }
    }
  }

  /** A NUL byte between three texts can end the first or start the last of two. */
  lemma OtherSplit(x: Bytes, y: Bytes, z: Bytes, i: U64)
    ensures EnvelopeAAD(x, y + ['\0'] + z, i) == EnvelopeAAD(x + ['\0'] + y, z, i)
  {
  }

  lemma SameSplit(s: Bytes, m: Bytes, i: U64, s': Bytes, m': Bytes, i': U64)
    requires '\0' !in s && '\0' !in m && EnvelopeAAD(s', m', i') == EnvelopeAAD(s, m, i)
    ensures s' == s && m' == m && i' == i
  {
    var x, y := EnvelopeAAD(s, m, i), EnvelopeAAD(s', m', i');
    assert x[..|x| - 9] == s + ['\0'] + m && y[..|y| - 9] == s' + ['\0'] + m';
    assert (s + ['\0'] + m)[|s'|] == '\0';
    assert s' == (s' + ['\0'] + m')[..|s'|] && s == (s + ['\0'] + m)[..|s|];
    EnvelopeAADBinds(s, m, i, m', i');
  }

  /** Message ids of different chain indices differ, whatever the clock did. */
  lemma MessageIDBindsIndex(clock: int, i: nat, clock': int, i': nat)
    requires MessageID(clock, i) == MessageID(clock', i')
    ensures i == i'
  {
    TailAfterSeparator("dr_" + SignedDecimal(clock), "dr_" + SignedDecimal(clock'), '_', Decimal(i), Decimal(i'));
    DecimalRoundTrip(i);
    DecimalRoundTrip(i');
  }

  lemma StandardIsSound(kdf: (Bytes, Bytes) -> Bytes, hash: Bytes -> Bytes, cipher: Cipher)
    requires cipher.Ideal() && forall input, info :: |kdf(input, info)| == 32
    ensures Standard(kdf, hash, cipher).Sound()
  {
    var prims := Standard(kdf, hash, cipher);
    forall k: Bytes, i: U64
      ensures |prims.messageKey(k, i)| == KEY_SIZE && |prims.ratchetKey(k, i)| == KEY_SIZE
    {
      assert |kdf(k + BigEndian(i, 8), "aim/ratchet/message-key/v1")| == KEY_SIZE;
    }
    forall t: int, i: U64
      ensures prims.messageID(t, i) != ""
    {
      assert MessageID(t, i)[0] == 'd';
    }
    forall t: int, i: U64, t', i': U64 | prims.messageID(t, i) == prims.messageID(t', i')
      ensures i == i'
    {
      MessageIDBindsIndex(t, i, t', i');
    }
    forall s, m, i: U64, m', i': U64 | prims.aad(s, m, i) == prims.aad(s, m', i')
      ensures m == m' && i == i'
    {
      EnvelopeAADBinds(s, m, i, m', i');
    }
  }

  // ---------------------------------------------------------------- chain walking

  lemma {:induction false} WalkCompose(prims: Primitives, key: Bytes, a: nat, b: nat, c: U64)
    requires a <= b <= c
    ensures WalkKey(prims, WalkKey(prims, key, a, b), b, c) == WalkKey(prims, key, a, c)
    decreases b - a
  {
    if a < b {
      WalkCompose(prims, prims.nextKey(key, a), a + 1, b, c);
    }
  }

  lemma WalkExtend(prims: Primitives, key: Bytes, start: nat, index: nat)
    requires start <= index < U64_MOD - 1
    ensures WalkKey(prims, key, start, index + 1) == prims.nextKey(WalkKey(prims, key, start, index), index)
  {
    WalkCompose(prims, key, start, index, index + 1);
  }

  lemma {:induction false} GapKeysAt(prims: Primitives, key: Bytes, start: nat, end: U64, i: nat)
    requires start <= end
    ensures i in GapKeys(prims, key, start, end) <==> start <= i < end
    ensures start <= i < end ==>
              GapKeys(prims, key, start, end)[i] == prims.messageKey(WalkKey(prims, key, start, i), i)
    decreases end - start
  {
    if start < end {
      GapKeysAt(prims, prims.nextKey(key, start), start + 1, end, i);
    }
  }

  // ---------------------------------------------------------------- sessions

  function InitialSession(prims: Primitives, localID: Bytes, contactID: Bytes, peerKey: Bytes): Session
  {
    var root := RootKey(prims, localID, contactID, peerKey);
    var (send, recv) := InitialChainKeys(prims, root, localID, contactID);
    Session(SessionID(prims, localID, contactID, peerKey), contactID, peerKey, root, send, recv, 0, 0, [], map[])
  }

  /** Two parties that start from the same 32-byte key agree on session id and root key, and each
      sends on the chain the other receives on, exactly when their ids differ (or the two chains
      happen to start from the same key). */
  lemma InitialSessionsCross(prims: Primitives, a: Bytes, b: Bytes, key: Bytes)
    ensures var x, y := InitialSession(prims, a, b, key), InitialSession(prims, b, a, key);
            && x.sessionID == y.sessionID && x.rootKey == y.rootKey
            && (x.sendKey == y.recvKey && y.sendKey == x.recvKey
                <==> (a != b || prims.kdf(x.rootKey, "aim/ratchet/chain/a2b/v1")
                                == prims.kdf(x.rootKey, "aim/ratchet/chain/b2a/v1")))
  {
    LexTotal(a, b);
  }

  function AppendSeen(list: seq<Bytes>, value: Bytes): seq<Bytes>
  {
    LastN(list + [value], MAX_SEEN_MESSAGE_IDS)
  }

  predicate ValidEnvelope(env: Envelope)
  {
    && env.version != 0
    && env.sessionID != "" && env.messageID != ""
    && env.ratchetKey != "" && |env.nonce| == NONCE_SIZE && env.ciphertext != ""
  }

  /** `index` has dropped out of the window below `recvIndex` (64-bit addition wraps). */
  predicate OutOfWindow(index: nat, recvIndex: nat)
  {
    (index + MAX_SKIPPED_CHAIN_GAP) % U64_MOD < recvIndex
  }

  /** The members of `keys` above `i`. */
  function Above(keys: set<nat>, i: nat): set<nat>
  {
    set j | j in keys && j > i
  }

  /** The entries with the `max` largest indices. */
  function Newest(keys: map<nat, Bytes>, max: nat): map<nat, Bytes>
  {
    map i | i in keys && |Above(keys.Keys, i)| < max :: keys[i]
  }

  lemma NewestOfFew(keys: map<nat, Bytes>, max: nat)
    requires |keys| <= max
    ensures Newest(keys, max) == keys
  {
    forall i | i in keys
      ensures |Above(keys.Keys, i)| < max
    {
      SubsetSize(Above(keys.Keys, i) + {i}, keys.Keys);
    }
  }

  lemma NewestWithoutOldest(keys: map<nat, Bytes>, max: nat, oldest: nat)
    requires |keys| > max && oldest in keys && forall k :: k in keys ==> oldest <= k
    ensures Newest(keys - {oldest}, max) == Newest(keys, max)
  {
    var rest := keys - {oldest};
    assert rest.Keys == keys.Keys - {oldest};
    assert Above(keys.Keys, oldest) == rest.Keys;
    assert forall i :: i in rest ==> Above(rest.Keys, i) == Above(keys.Keys, i);
  }

  function InWindow(keys: map<nat, Bytes>, recvIndex: nat): map<nat, Bytes>
  {
    map i | i in keys && !OutOfWindow(i, recvIndex) :: keys[i]
  }

  function Pruned(keys: map<nat, Bytes>, recvIndex: nat, max: nat): map<nat, Bytes>
  {
    Newest(InWindow(keys, recvIndex), max)
  }

  // ---------------------------------------------------------------- one encryption, one decryption

  function EncryptOutcome(prims: Primitives, loaded: Option<Session>, plaintext: Bytes, clock: int, nonce: Bytes,
                          fault: Fault): Result<(Session, Envelope)>
  {
    if fault == LoadFault then Err(LoadFailed)
    else if loaded.None? then Err(SessionNotFound)
    else
      var s := loaded.value;
      var key := prims.messageKey(s.sendKey, s.sendIndex);
      if fault == RandomFault then Err(RandomFailed)
      else if |key| != KEY_SIZE then Err(InvalidKeySize)
      else
        var id := prims.messageID(clock, s.sendIndex);
        var env := Envelope(1, s.sessionID, id, prims.ratchetKey(s.rootKey, s.sendIndex), s.sendIndex, s.recvIndex,
                            nonce, prims.cipher.seal(key, nonce, plaintext, prims.aad(s.sessionID, id, s.sendIndex)));
        if fault == SaveFault then Err(SaveFailed)
        else Ok((s.(sendIndex := (s.sendIndex + 1) % U64_MOD,
                    sendKey := prims.nextKey(s.sendKey, s.sendIndex)), env))
  }

  function DecryptOutcome(prims: Primitives, loaded: Option<Session>, env: Envelope,
                                fault: Fault): Result<(Session, Bytes)>
  {
    if !ValidEnvelope(env) then Err(InvalidEnvelope)
    else if fault == LoadFault then Err(LoadFailed)
    else if loaded.None? then Err(SessionNotFound)
    else
      var s := loaded.value;
      if env.sessionID != s.sessionID then Err(SessionMismatch)
      else if env.messageID in s.seen then Err(ReplayDetected)
      else if env.chainIndex in s.skipped then
        Opened(prims, s.skipped[env.chainIndex], env, fault,
               s.(skipped := s.skipped - {env.chainIndex}, seen := AppendSeen(s.seen, env.messageID)))
      else AdvanceOutcome(prims, s, env, fault)
  }

  /** Decrypting at or beyond the receiving index: skip over the gap, storing its keys. */
  function AdvanceOutcome(prims: Primitives, s: Session, env: Envelope, fault: Fault): Result<(Session, Bytes)>
  {
    if env.chainIndex < s.recvIndex then Err(InvalidChainIndex)
    else if env.chainIndex - s.recvIndex > MAX_SKIPPED_CHAIN_GAP then Err(InvalidChainIndex)
    else
      var key := WalkKey(prims, s.recvKey, s.recvIndex, env.chainIndex);
      Opened(prims, prims.messageKey(key, env.chainIndex), env, fault,
             Advanced(s, env, prims.nextKey(key, env.chainIndex), (env.chainIndex + 1) % U64_MOD,
                      KeysAfter(prims, s, env.chainIndex)))
  }

  function Advanced(s: Session, env: Envelope, recvKey: Bytes, recvIndex: U64, keys: map<nat, Bytes>): Session
  {
    s.(recvKey := recvKey, recvIndex := recvIndex, skipped := keys, seen := AppendSeen(s.seen, env.messageID))
  }

  /** The stored keys with those of the gap before `index` added. */
  function Filled(prims: Primitives, s: Session, index: U64): map<nat, Bytes>
    requires s.recvIndex <= index
  {
    s.skipped + GapKeys(prims, s.recvKey, s.recvIndex, index)
  }

  /** The stored keys once the message at `index` has been received. */
  function KeysAfter(prims: Primitives, s: Session, index: U64): map<nat, Bytes>
    requires s.recvIndex <= index
  {
    Pruned(Pruned(Filled(prims, s, index), s.recvIndex, MAX_SKIPPED_MESSAGE_KEYS),
           (index + 1) % U64_MOD, MAX_SKIPPED_MESSAGE_KEYS)
  }

  /** Opens `env` with `key`; if that works, moves on to `next`. */
  function Opened(prims: Primitives, key: Bytes, env: Envelope, fault: Fault, next: Session): Result<(Session, Bytes)>
  {
    if |key| != KEY_SIZE then Err(InvalidKeySize)
    else
      match prims.cipher.open(key, env.nonce, env.ciphertext, prims.aad(next.sessionID, env.messageID, env.chainIndex))
      case None => Err(OpenFailed)
      case Some(p) => if fault == SaveFault then Err(SaveFailed) else Ok((next, p))
  }

  // ---------------------------------------------------------------- the session manager

  function Lookup<K, V>(m: map<K, V>, k: K): Option<V>
  {
    if k in m then Some(m[k]) else None
  }

  method SeenContains(list: seq<Bytes>, value: Bytes) returns (found: bool)
    ensures found <==> value in list
  {
    for i := 0 to |list|
      invariant value !in list[..i]
    {
      if list[i] == value {
        return true;
      }
    }
    return false;
  }

  method DropOutOfWindow(keys: map<nat, Bytes>, recvIndex: nat) returns (kept: map<nat, Bytes>)
    ensures kept == InWindow(keys, recvIndex)
  {
    kept := keys;
    var todo := keys.Keys;
    while todo != {}
      invariant todo <= keys.Keys
      invariant kept == map i | i in keys && (i in todo || !OutOfWindow(i, recvIndex)) :: keys[i]
      decreases todo
    {
      var index :| index in todo;
      todo := todo - {index};
      if OutOfWindow(index, recvIndex) {
        kept := kept - {index};
      }
    }
  }

  method PruneSkippedKeys(keys: map<nat, Bytes>, recvIndex: nat, max: nat) returns (kept: map<nat, Bytes>)
    ensures kept == Pruned(keys, recvIndex, max)
  {
    kept := DropOutOfWindow(keys, recvIndex);
    while |kept| > max
      invariant Newest(kept, max) == Pruned(keys, recvIndex, max)
      decreases |kept|
    {
      var oldest := FindOldest(kept.Keys);
      NewestWithoutOldest(kept, max, oldest);
      assert (kept - {oldest}).Keys == kept.Keys - {oldest};
      kept := kept - {oldest};
    }
    NewestOfFew(kept, max);
  }

  method FindOldest(keys: set<nat>) returns (oldest: nat)
    requires keys != {}
    ensures oldest in keys && forall k :: k in keys ==> oldest <= k
  {
    var todo := keys;
    oldest :| oldest in todo;
    todo := todo - {oldest};
    while todo != {}
      invariant oldest in keys && todo <= keys
      invariant forall k :: k in keys && k !in todo ==> oldest <= k
      decreases todo
    {
      var k :| k in todo;
      if k < oldest {
        oldest := k;
      }
      todo := todo - {k};
    }
  }

  /** Walks the receiving chain up to `target`, storing the message key of every index passed. */
  method SkipTo(prims: Primitives, recvKey: Bytes, recvIndex: U64, target: U64, skipped: map<nat, Bytes>)
    returns (chainKey: Bytes, keys: map<nat, Bytes>)
    requires recvIndex <= target
    ensures chainKey == WalkKey(prims, recvKey, recvIndex, target)
    ensures keys == skipped + GapKeys(prims, recvKey, recvIndex, target)
  {
    chainKey, keys := recvKey, skipped;
    for index := recvIndex to target
      invariant WalkKey(prims, chainKey, index, target) == WalkKey(prims, recvKey, recvIndex, target)
      invariant keys + GapKeys(prims, chainKey, index, target) == skipped + GapKeys(prims, recvKey, recvIndex, target)
    {
      var key := prims.messageKey(chainKey, index);
      UpdateThenSum(keys, index, key, GapKeys(prims, prims.nextKey(chainKey, index), index + 1, target));
      keys := keys[index := key];
      chainKey := prims.nextKey(chainKey, index);
    }
  }

  /** Sessions by contact, as the persistent session store keeps them: loading gives a copy. */
  class SessionManager {
    const prims: Primitives
    var sessions: map<Bytes, Session>

    ghost predicate Valid()
      reads this
    {
      forall id <- sessions :: sessions[id].contactID == id
    }

    constructor (prims: Primitives)
      ensures this.prims == prims && sessions == map[] && Valid()
    {
      this.prims := prims;
      sessions := map[];
    }

    method InitSession(localID: Bytes, contactID: Bytes, peerKey: Bytes, fault: Fault) returns (r: Result<Session>)
      requires Valid()
      modifies this
      ensures Valid()
      ensures r.Ok? <==> contactID != "" && |peerKey| == KEY_SIZE && fault != SaveFault
      ensures r.Ok? ==> r.value == InitialSession(prims, localID, contactID, peerKey)
      ensures sessions == if r.Ok? then old(sessions)[contactID := r.value] else old(sessions)
    {
      if contactID == "" {
        return Err(InvalidContact);
      }
      if |peerKey| != KEY_SIZE {
        return Err(InvalidPeerKey);
      }
      var state := InitialSession(prims, localID, contactID, peerKey);
      if fault == SaveFault {
        return Err(SaveFailed);
      }
      sessions := sessions[state.contactID := state];
      return Ok(state);
    }

    method Encrypt(contactID: Bytes, plaintext: Bytes, clock: int, nonce: Bytes, fault: Fault)
      returns (r: Result<Envelope>)
      requires Valid()
      modifies this
      ensures Valid()
      ensures match EncryptOutcome(prims, Lookup(old(sessions), contactID), plaintext, clock, nonce, fault)
              case Err(e) => r == Err(e) && sessions == old(sessions)
              case Ok((s, env)) => r == Ok(env) && sessions == old(sessions)[contactID := s]
    {
      if fault == LoadFault {
        return Err(LoadFailed);
      }
      if contactID !in sessions {
        return Err(SessionNotFound);
      }
      var state := sessions[contactID];
      var id := prims.messageID(clock, state.sendIndex);
      var key := prims.messageKey(state.sendKey, state.sendIndex);
      var nextKey := prims.nextKey(state.sendKey, state.sendIndex);
      if fault == RandomFault {
        return Err(RandomFailed);
      }
      if |key| != KEY_SIZE {
        return Err(InvalidKeySize);
      }
      var ad := prims.aad(state.sessionID, id, state.sendIndex);
      var ciphertext := prims.cipher.seal(key, nonce, plaintext, ad);
      var env := Envelope(1, state.sessionID, id, prims.ratchetKey(state.rootKey, state.sendIndex),
                          state.sendIndex, state.recvIndex, nonce, ciphertext);
      state := state.(sendIndex := (state.sendIndex + 1) % U64_MOD);
      state := state.(sendKey := nextKey);
      if fault == SaveFault {
        return Err(SaveFailed);
      }
      sessions := sessions[state.contactID := state];
      return Ok(env);
    }

    /** The chain key at `target` and the keys to store once the message there has been opened. */
    method ReceiveUpTo(state: Session, target: U64) returns (chainKey: Bytes, keys: map<nat, Bytes>)
      requires state.recvIndex <= target
      ensures chainKey == WalkKey(prims, state.recvKey, state.recvIndex, target)
      ensures keys == KeysAfter(prims, state, target)
    {
      chainKey, keys := SkipTo(prims, state.recvKey, state.recvIndex, target, state.skipped);
      keys := PruneSkippedKeys(keys, state.recvIndex, MAX_SKIPPED_MESSAGE_KEYS);
      keys := PruneSkippedKeys(keys, (target + 1) % U64_MOD, MAX_SKIPPED_MESSAGE_KEYS);
    }

    method Advance(state: Session, env: Envelope, fault: Fault) returns (r: Result<(Session, Bytes)>)
      ensures r == AdvanceOutcome(prims, state, env, fault)
    {
      if env.chainIndex < state.recvIndex {
        return Err(InvalidChainIndex);
      }
      if env.chainIndex - state.recvIndex > MAX_SKIPPED_CHAIN_GAP {
        return Err(InvalidChainIndex);
      }
      var chainKey, keys := ReceiveUpTo(state, env.chainIndex);
      r := Opened(prims, prims.messageKey(chainKey, env.chainIndex), env, fault,
                  Advanced(state, env, prims.nextKey(chainKey, env.chainIndex), (env.chainIndex + 1) % U64_MOD, keys));
    }

    method Decrypt(contactID: Bytes, env: Envelope, fault: Fault) returns (r: Result<Bytes>)
      requires Valid()
      modifies this
      ensures Valid()
      ensures match DecryptOutcome(prims, Lookup(old(sessions), contactID), env, fault)
              case Err(e) => r == Err(e) && sessions == old(sessions)
              case Ok((s, p)) => r == Ok(p) && sessions == old(sessions)[contactID := s]
    {
      if !ValidEnvelope(env) {
        return Err(InvalidEnvelope);
      }
      if fault == LoadFault {
        return Err(LoadFailed);
      }
      if contactID !in sessions {
        return Err(SessionNotFound);
      }
      var state := sessions[contactID];
      if env.sessionID != state.sessionID {
        return Err(SessionMismatch);
      }
      var replayed := SeenContains(state.seen, env.messageID);
      if replayed {
        return Err(ReplayDetected);
      }
      var ad := prims.aad(state.sessionID, env.messageID, env.chainIndex);
      if env.chainIndex in state.skipped {
        var skippedKey := state.skipped[env.chainIndex];
        if |skippedKey| != KEY_SIZE {
          return Err(InvalidKeySize);
        }
        var plain := prims.cipher.open(skippedKey, env.nonce, env.ciphertext, ad);
        if plain.None? {
          return Err(OpenFailed);
        }
        state := state.(skipped := state.skipped - {env.chainIndex});
        state := state.(seen := AppendSeen(state.seen, env.messageID));
        if fault == SaveFault {
          return Err(SaveFailed);
        }
        sessions := sessions[state.contactID := state];
        return Ok(plain.value);
      }
      var advanced := Advance(state, env, fault);
      match advanced {
        case Err(e) =>
          return Err(e);
        case Ok((next, p)) =>
          sessions := sessions[next.contactID := next];
          return Ok(p);
      }
    }
  }
}
