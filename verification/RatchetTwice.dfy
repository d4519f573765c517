/** With a shared key map single acceptance is really lost: a run in which one index is accepted twice.

    Altered envelopes make the receiver store keys ahead of its receiving index. One of these keys is
    used, and comes back when the receiving index moves past it; with the help of a second altered
    envelope 1024 other messages are accepted before it leaves the window, so that its message is no
    longer remembered when it is delivered again.
 */
module RatchetTwice {
  import opened Text
  import opened Ratchet
  import opened RatchetLink
  import opened RatchetShared

  /** `link` is reached by a run from `start`. */
  ghost predicate Reached(prims: Primitives, start: Link, link: Link)
  {
    exists steps :: SharedAdmissibleRun(prims, start, steps) && SharedRun(prims, start, steps) == link
  }

  ghost predicate Known(prims: Primitives, start: Link, link: Link)
  {
    && prims.Sound() && start.sender.sessionID != "" && Reached(prims, start, link)
    && SharedInv(prims, start.sender.sendKey, start.sender.sessionID, link)
  }

  lemma OneMoreStep(prims: Primitives, start: Link, link: Link, step: Step)
    requires Known(prims, start, link) && SharedAdmissible(prims, start.sender.sendKey, link, step)
    ensures Known(prims, start, SharedNext(prims, link, step))
  {
    SharedStepKeepsInv(prims, start.sender.sendKey, start.sender.sessionID, link, step);
    var steps :| SharedAdmissibleRun(prims, start, steps) && SharedRun(prims, start, steps) == link;
    var longer := steps + [step];
    assert longer[..|steps|] == steps;
    forall k | 0 <= k < |longer|
      ensures SharedAdmissible(prims, start.sender.sendKey, SharedRun(prims, start, longer[..k]), longer[k])
    {
      assert k < |steps| ==> longer[..k] == steps[..k];
    }
    assert SharedAdmissibleRun(prims, start, longer);
  }

  // ---------------------------------------------------------------- single steps

  function Send(): Step
  {
    SenderEncrypts("", 0, seq(NONCE_SIZE, i => '\0'), NoFault)
  }

  /** Sends `n` messages. */
  lemma {:induction false} Sends(prims: Primitives, start: Link, n: nat) returns (link: Link)
    requires Known(prims, start, start) && start.sent == []
    requires n + 2 * MAX_SKIPPED_CHAIN_GAP + 1 < U64_MOD
    ensures Known(prims, start, link) && |link.sent| == n
    ensures link.receiver == start.receiver && link.accepted == start.accepted
  {
    if n == 0 {
      link := start;
    } else {
      var before := Sends(prims, start, n - 1);
      OneMoreStep(prims, start, before, Send());
      link := SharedNext(prims, before, Send());
    }
  }

  function Deliver(link: Link, i: nat): Step
    requires i < |link.sent|
  {
    ReceiverDecrypts(link.sent[i].env, NoFault)
  }

  lemma DeliveryIsAdmissible(prims: Primitives, chain: Bytes, link: Link, i: nat)
    requires i < |link.sent|
    ensures SharedAdmissible(prims, chain, link, Deliver(link, i))
  {
  }

  lemma Opens(prims: Primitives, start: Link, link: Link, i: nat)
    requires Known(prims, start, link) && i < |link.sent| && i !in LastN(link.accepted, MAX_SEEN_MESSAGE_IDS)
    requires i in link.receiver.skipped
             || link.receiver.recvIndex <= i <= link.receiver.recvIndex + MAX_SKIPPED_CHAIN_GAP
    ensures DecryptOutcome(prims, Some(link.receiver), link.sent[i].env, NoFault).Ok?
    ensures link.sent[i].env.chainIndex == i
    ensures Known(prims, start, SharedNext(prims, link, Deliver(link, i)))
  {
    var chain, sessionID := start.sender.sendKey, start.sender.sessionID;
    RememberedIff(prims, chain, sessionID, link, i);
    SharedOpensIff(prims, chain, sessionID, link, i);
    assert Genuine(prims, chain, sessionID, i, link.sent[i]);
    DeliveryIsAdmissible(prims, chain, link, i);
    OneMoreStep(prims, start, link, Deliver(link, i));
  }

  /** Delivering a message whose key is stored uses the key up and moves nothing. */
  lemma UsesKey(prims: Primitives, start: Link, link: Link, i: nat) returns (next: Link)
    requires Known(prims, start, link) && i < |link.sent| && i !in LastN(link.accepted, MAX_SEEN_MESSAGE_IDS)
    requires i in link.receiver.skipped
    ensures Known(prims, start, next) && next.sent == link.sent && next.accepted == link.accepted + [i]
    ensures next.receiver.recvIndex == link.receiver.recvIndex
    ensures next.receiver.skipped == link.receiver.skipped - {i}
  {
    Opens(prims, start, link, i);
    next := SharedNext(prims, link, Deliver(link, i));
  }

  lemma AheadSession(prims: Primitives, chain: Bytes, r: Session, env: Envelope, after: Session, p: Bytes)
    requires KeysRight(prims, chain, r.skipped) && r.recvKey == WalkKey(prims, chain, 0, r.recvIndex)
    requires KeysNear(r.skipped, r.recvIndex)
    requires AdvanceOutcome(prims, r, env, NoFault) == Ok((after, p))
    ensures after.recvIndex == (env.chainIndex + 1) % U64_MOD
    ensures r.recvIndex <= env.chainIndex
    ensures after.skipped
         == InWindow(InWindow(Filled(prims, r, env.chainIndex), r.recvIndex), (env.chainIndex + 1) % U64_MOD)
  {
    SharedCapNeverFires(prims, chain, r, env.chainIndex);
  }

  lemma AheadOutcome(prims: Primitives, chain: Bytes, sessionID: Bytes, link: Link, i: nat, next: Link)
    requires SharedInv(prims, chain, sessionID, link) && i < |link.sent| && link.sent[i].env.chainIndex == i
    requires DecryptOutcome(prims, Some(link.receiver), link.sent[i].env, NoFault).Ok?
    requires next == SharedNext(prims, link, Deliver(link, i))
    requires i !in link.receiver.skipped
    ensures link.receiver.recvIndex <= i
    ensures next.sent == link.sent && next.accepted == link.accepted + [i]
            && next.receiver.recvIndex == (i + 1) % U64_MOD
    ensures next.receiver.skipped
         == InWindow(InWindow(Filled(prims, link.receiver, i), link.receiver.recvIndex), (i + 1) % U64_MOD)
  {
    var (after, p) := DecryptOutcome(prims, Some(link.receiver), link.sent[i].env, NoFault).value;
    AheadSession(prims, chain, link.receiver, link.sent[i].env, after, p);
  }

  lemma Advances(prims: Primitives, start: Link, link: Link, i: nat) returns (next: Link)
    requires Known(prims, start, link) && i < |link.sent| && i !in LastN(link.accepted, MAX_SEEN_MESSAGE_IDS)
    requires i !in link.receiver.skipped
    requires link.receiver.recvIndex <= i <= link.receiver.recvIndex + MAX_SKIPPED_CHAIN_GAP
    ensures Known(prims, start, next) && next.sent == link.sent && next.accepted == link.accepted + [i]
    ensures i < U64_MOD && next.receiver.recvIndex == (i + 1) % U64_MOD
    ensures next.receiver.skipped
         == InWindow(InWindow(Filled(prims, link.receiver, i), link.receiver.recvIndex), (i + 1) % U64_MOD)
  {
    Opens(prims, start, link, i);
    next := SharedNext(prims, link, Deliver(link, i));
    AheadOutcome(prims, start.sender.sendKey, start.sender.sessionID, link, i, next);
  }

  lemma NoWrap(prims: Primitives, start: Link, link: Link, i: nat)
    requires Known(prims, start, link) && i < |link.sent|
    ensures (i + 1) % U64_MOD == i + 1 && link.receiver.recvIndex + 2 * MAX_SKIPPED_CHAIN_GAP < U64_MOD
  {
  }

  /** Delivering a message at or beyond the receiving index moves past it and stores the gap again. */
  lemma MovesPast(prims: Primitives, start: Link, link: Link, i: nat) returns (next: Link)
    requires Known(prims, start, link) && i < |link.sent| && i !in LastN(link.accepted, MAX_SEEN_MESSAGE_IDS)
    requires i !in link.receiver.skipped
    requires link.receiver.recvIndex <= i <= link.receiver.recvIndex + MAX_SKIPPED_CHAIN_GAP
    ensures Known(prims, start, next) && next.sent == link.sent && next.accepted == link.accepted + [i]
    ensures next.receiver.recvIndex == i + 1 && KeptPast(link.receiver, i, next.receiver.skipped)
  {
    next := Advances(prims, start, link, i);
    NoWrap(prims, start, link, i);
    KeysKeptPast(prims, start.sender.sendKey, link.receiver, i, next.receiver.skipped);
  }

  /** The keys stored after moving past `i`. */
  ghost predicate KeptPast(r: Session, i: nat, keys: map<nat, Bytes>)
  {
    forall k :: k in keys <==> (k in r.skipped || r.recvIndex <= k < i) && i + 1 <= k + MAX_SKIPPED_CHAIN_GAP
  }

  lemma KeysKeptPast(prims: Primitives, chain: Bytes, r: Session, i: U64, keys: map<nat, Bytes>)
    requires KeysRight(prims, chain, r.skipped) && r.recvKey == WalkKey(prims, chain, 0, r.recvIndex)
    requires KeysNear(r.skipped, r.recvIndex) && r.recvIndex + 2 * MAX_SKIPPED_CHAIN_GAP < U64_MOD
    requires r.recvIndex <= i <= r.recvIndex + MAX_SKIPPED_CHAIN_GAP
    requires keys == InWindow(InWindow(Filled(prims, r, i), r.recvIndex), i + 1)
    ensures KeptPast(r, i, keys)
  {
    forall k: nat
      ensures k in keys <==> (k in r.skipped || r.recvIndex <= k < i) && i + 1 <= k + MAX_SKIPPED_CHAIN_GAP
    {
      SharedFilled(prims, chain, r, i, k);
      TwoWindows(Filled(prims, r, i), r.recvIndex, i, k);
    }
  }

  lemma TwoWindows(filled: map<nat, Bytes>, recvIndex: nat, i: nat, k: nat)
    requires recvIndex <= i && recvIndex + 2 * MAX_SKIPPED_CHAIN_GAP < U64_MOD
    requires k in filled ==> recvIndex <= k + MAX_SKIPPED_CHAIN_GAP && k < recvIndex + MAX_SKIPPED_CHAIN_GAP
    ensures k in InWindow(InWindow(filled, recvIndex), i + 1) <==> k in filled && i + 1 <= k + MAX_SKIPPED_CHAIN_GAP
  {
    if k in filled {
      InWindowIff(filled, recvIndex, k);
      InWindowIff(InWindow(filled, recvIndex), i + 1, k);
    }
  }

  /** The indices from `a` up to but excluding `b`. */
  function Gap(a: nat, b: nat): set<nat>
  {
    set k: nat | a <= k < b && Between(a, k, b)
  }

  predicate Between(a: nat, k: nat, b: nat)
  {
    a <= k < b
  }

  lemma AddsGap(after: set<nat>, keys: set<nat>, a: nat, b: nat)
    requires forall k :: k in after <==> k in keys || a <= k < b
    ensures after == keys + Gap(a, b)
  {
    assert forall k: nat :: a <= k < b <==> Between(a, k, b);
  }

  /** The last message sent, presented as one of another index. */
  function Altered(link: Link, index: U64): Envelope
    requires link.sent != []
  {
    link.sent[|link.sent| - 1].env.(chainIndex := index)
  }

  /** An altered envelope fails and leaves the keys of its gap. */
  lemma Disturbs(prims: Primitives, start: Link, link: Link, index: U64) returns (next: Link)
    requires Known(prims, start, link) && link.sent != [] && |link.sent| - 1 !in link.accepted
    requires index != |link.sent| - 1 && index !in link.receiver.skipped
    requires link.receiver.recvIndex < index <= link.receiver.recvIndex + MAX_SKIPPED_CHAIN_GAP
    ensures Known(prims, start, next) && next.sent == link.sent && next.accepted == link.accepted
    ensures next.receiver.recvIndex == link.receiver.recvIndex
    ensures next.receiver.skipped.Keys == link.receiver.skipped.Keys + Gap(link.receiver.recvIndex, index)
  {
    var chain, sessionID := start.sender.sendKey, start.sender.sessionID;
    var env := Altered(link, index);
    AlteredFails(prims, start, link, index);
    AlteredPassesGap(prims, start, link, index);
    OneMoreStep(prims, start, link, ReceiverDecrypts(env, NoFault));
    next := SharedNext(prims, link, ReceiverDecrypts(env, NoFault));
    assert next == link.(receiver := AfterFailure(prims, link.receiver, env));
    forall k: nat
      ensures k in AfterFailure(prims, link.receiver, env).skipped <==>
              k in link.receiver.skipped || link.receiver.recvIndex <= k < index
    {
      FailureKeys(prims, chain, link.receiver, env, k);
    }
    AddsGap(next.receiver.skipped.Keys, link.receiver.skipped.Keys, link.receiver.recvIndex, index);
  }

  lemma AlteredPassesGap(prims: Primitives, start: Link, link: Link, index: U64)
    requires Known(prims, start, link) && link.sent != [] && |link.sent| - 1 !in link.accepted
    requires index !in link.receiver.skipped
    requires link.receiver.recvIndex < index <= link.receiver.recvIndex + MAX_SKIPPED_CHAIN_GAP
    ensures PassesGap(link.receiver, Altered(link, index))
  {
    var j := |link.sent| - 1;
    assert Genuine(prims, start.sender.sendKey, start.sender.sessionID, j, link.sent[j]);
    RememberedIff(prims, start.sender.sendKey, start.sender.sessionID, link, j);
  }

  lemma AlteredFails(prims: Primitives, start: Link, link: Link, index: U64)
    requires Known(prims, start, link) && link.sent != [] && index != |link.sent| - 1
    ensures Unforged(prims, start.sender.sendKey, link.sent, Altered(link, index).ciphertext)
    ensures DecryptOutcome(prims, Some(link.receiver), Altered(link, index), NoFault).Err?
  {
    var chain, sessionID := start.sender.sendKey, start.sender.sessionID;
    var j, env := |link.sent| - 1, Altered(link, index);
    assert Genuine(prims, chain, sessionID, j, link.sent[j]);
    assert index < |link.sent| ==> Genuine(prims, chain, sessionID, index, link.sent[index]);
    if DecryptOutcome(prims, Some(link.receiver), env, NoFault).Ok? {
      SharedDecryptAccepts(prims, chain, sessionID, link, env, NoFault);
    }
  }

  // ---------------------------------------------------------------- what the run depends on

  /** The part of a link that decides which messages are accepted: how many were sent, the receiving
      index, the indices with stored keys, and what was accepted. */
  datatype View = View(sent: nat, recvIndex: nat, keys: set<nat>, accepted: seq<nat>)

  function ViewOf(link: Link): View
  {
    View(|link.sent|, link.receiver.recvIndex, link.receiver.skipped.Keys, link.accepted)
  }

  predicate CanUse(v: View, i: nat)
  {
    i < v.sent && i in v.keys && i !in LastN(v.accepted, MAX_SEEN_MESSAGE_IDS)
  }

  function Use(v: View, i: nat): View
  {
    v.(keys := v.keys - {i}, accepted := v.accepted + [i])
  }

  predicate CanMove(v: View, i: nat)
  {
    && i < v.sent && i !in v.keys && i !in LastN(v.accepted, MAX_SEEN_MESSAGE_IDS)
    && v.recvIndex <= i <= v.recvIndex + MAX_SKIPPED_CHAIN_GAP
  }

  function Move(v: View, i: nat): View
  {
    v.(recvIndex := i + 1, accepted := v.accepted + [i],
       keys := set k | k in v.keys + Gap(v.recvIndex, i) && i + 1 <= k + MAX_SKIPPED_CHAIN_GAP)
  }

  predicate CanDisturb(v: View, i: nat)
  {
    && v.sent > 0 && v.sent - 1 !in v.accepted && i != v.sent - 1 && i !in v.keys && i < U64_MOD
    && v.recvIndex < i <= v.recvIndex + MAX_SKIPPED_CHAIN_GAP
  }

  function Disturb(v: View, i: nat): View
  {
    v.(keys := v.keys + Gap(v.recvIndex, i))
  }

  /** A known link and what can be seen of it. */
  ghost predicate Shows(prims: Primitives, start: Link, link: Link, v: View)
  {
    Known(prims, start, link) && ViewOf(link) == v
  }

  /** The views that can be reached from `start`. */
  ghost predicate Seen(prims: Primitives, start: Link, v: View)
  {
    exists link :: Shows(prims, start, link, v)
  }

  lemma ShowsUse(prims: Primitives, start: Link, link: Link, v: View, i: nat) returns (next: Link)
    requires Shows(prims, start, link, v) && CanUse(v, i)
    ensures Shows(prims, start, next, Use(v, i))
  {
    next := UsesKey(prims, start, link, i);
  }

  lemma ShowsMove(prims: Primitives, start: Link, link: Link, v: View, i: nat) returns (next: Link)
    requires Shows(prims, start, link, v) && CanMove(v, i)
    ensures Shows(prims, start, next, Move(v, i))
  {
    next := MovesPast(prims, start, link, i);
    MovesKeys(link.receiver, i, next.receiver.skipped);
  }

  lemma MovesKeys(r: Session, i: nat, keys: map<nat, Bytes>)
    requires KeptPast(r, i, keys)
    ensures keys.Keys == set k | k in r.skipped.Keys + Gap(r.recvIndex, i) && i + 1 <= k + MAX_SKIPPED_CHAIN_GAP
  {
    assert forall k: nat :: k in Gap(r.recvIndex, i) <==> Between(r.recvIndex, k, i);
  }

  lemma ShowsDisturb(prims: Primitives, start: Link, link: Link, v: View, i: nat) returns (next: Link)
    requires Shows(prims, start, link, v) && CanDisturb(v, i)
    ensures Shows(prims, start, next, Disturb(v, i))
  {
    next := Disturbs(prims, start, link, i);
  }

  lemma SeenUse(prims: Primitives, start: Link, v: View, i: nat)
    requires Seen(prims, start, v) && CanUse(v, i)
    ensures Seen(prims, start, Use(v, i))
  {
    var link :| Shows(prims, start, link, v);
    var next := ShowsUse(prims, start, link, v, i);
  }

  lemma SeenMove(prims: Primitives, start: Link, v: View, i: nat)
    requires Seen(prims, start, v) && CanMove(v, i)
    ensures Seen(prims, start, Move(v, i))
  {
    var link :| Shows(prims, start, link, v);
    var next := ShowsMove(prims, start, link, v, i);
  }

  lemma SeenDisturb(prims: Primitives, start: Link, v: View, i: nat)
    requires Seen(prims, start, v) && CanDisturb(v, i)
    ensures Seen(prims, start, Disturb(v, i))
  {
    var link :| Shows(prims, start, link, v);
    var next := ShowsDisturb(prims, start, link, v, i);
  }

  /** A property of views that every such step keeps. */
  ghost predicate Closed(p: View -> bool)
  {
    && (forall v, i :: p(v) && CanUse(v, i) ==> p(Use(v, i)))
    && (forall v, i :: p(v) && CanMove(v, i) ==> p(Move(v, i)))
    && (forall v, i :: p(v) && CanDisturb(v, i) ==> p(Disturb(v, i)))
  }

  // ---------------------------------------------------------------- the run

  const GAP: nat := MAX_SKIPPED_CHAIN_GAP

  function Range(a: nat, b: nat): seq<nat>
    requires a <= b
  {
    seq(b - a, k => a + k)
  }

  lemma RangeExtends(a: nat, b: nat)
    requires a <= b
    ensures Range(a, b + 1) == Range(a, b) + [b]
  {
  }

  /** What the receiver has accepted: the one in question, all before it, and those behind it below `n`. */
  function Accepted(n: nat): seq<nat>
    requires GAP <= n
  {
    [GAP - 1] + Range(0, GAP - 1) + Range(GAP, n)
  }

  lemma AcceptedExtends(n: nat)
    requires GAP <= n
    ensures Accepted(n + 1) == Accepted(n) + [n]
  {
    RangeExtends(GAP, n);
  }

  /** An altered envelope for index 512 makes the receiver store keys 0 to 511, and message 511 is
      accepted with the stored key. */
  lemma Begins(p: View -> bool)
    requires Closed(p) && p(View(2 * GAP + 1, 0, {}, []))
    ensures p(View(2 * GAP + 1, 0, Gap(0, GAP - 1), [GAP - 1]))
  {
    var v := View(2 * GAP + 1, 0, {}, []);
    assert CanDisturb(v, GAP);
    var w := Disturb(v, GAP);
    assert p(w) && CanUse(w, GAP - 1);
    assert Gap(0, GAP) - {GAP - 1} == Gap(0, GAP - 1);
    assert Use(w, GAP - 1) == View(2 * GAP + 1, 0, Gap(0, GAP - 1), [GAP - 1]);
  }

  /** Then all messages before it, with the stored keys. */
  lemma {:induction false} AcceptsEarlier(p: View -> bool, n: nat)
    requires Closed(p) && p(View(2 * GAP + 1, 0, Gap(0, GAP - 1), [GAP - 1])) && n <= GAP - 1
    ensures p(View(2 * GAP + 1, 0, Gap(n, GAP - 1), [GAP - 1] + Range(0, n)))
  {
    if n == 0 {
      assert [GAP - 1] + Range(0, 0) == [GAP - 1];
    } else {
      AcceptsEarlier(p, n - 1);
      var v := View(2 * GAP + 1, 0, Gap(n - 1, GAP - 1), [GAP - 1] + Range(0, n - 1));
      assert n - 1 !in v.accepted && CanUse(v, n - 1);
      RangeExtends(0, n - 1);
      assert Gap(n - 1, GAP - 1) - {n - 1} == Gap(n, GAP - 1);
      assert Use(v, n - 1) == View(2 * GAP + 1, 0, Gap(n, GAP - 1), [GAP - 1] + Range(0, n));
    }
  }

  /** Message 512 moves the receiving index past 511 and brings its key back. */
  lemma Jumps(p: View -> bool)
    requires Closed(p) && p(View(2 * GAP + 1, 0, Gap(GAP - 1, GAP - 1), [GAP - 1] + Range(0, GAP - 1)))
    ensures p(View(2 * GAP + 1, GAP + 1, Gap(1, GAP), Accepted(GAP + 1)))
  {
    var v := View(2 * GAP + 1, 0, Gap(GAP - 1, GAP - 1), [GAP - 1] + Range(0, GAP - 1));
    assert GAP !in v.accepted && CanMove(v, GAP);
    assert Accepted(GAP) == v.accepted;
    AcceptedExtends(GAP);
    assert Move(v, GAP).keys == Gap(1, GAP);
    assert Move(v, GAP) == View(2 * GAP + 1, GAP + 1, Gap(1, GAP), Accepted(GAP + 1));
  }

  /** The messages after that are received in order, as long as key 511 stays within the window. */
  lemma {:induction false} AcceptsLater(p: View -> bool, n: nat)
    requires Closed(p) && p(View(2 * GAP + 1, GAP + 1, Gap(1, GAP), Accepted(GAP + 1))) && GAP + 1 <= n <= 2 * GAP - 1
    ensures p(View(2 * GAP + 1, n, Gap(n - GAP, GAP), Accepted(n)))
  {
    if n > GAP + 1 {
      AcceptsLater(p, n - 1);
      var v := View(2 * GAP + 1, n - 1, Gap(n - 1 - GAP, GAP), Accepted(n - 1));
      assert n - 1 !in v.accepted && CanMove(v, n - 1);
      AcceptedExtends(n - 1);
      assert Move(v, n - 1).keys == Gap(n - GAP, GAP);
      assert Move(v, n - 1) == View(2 * GAP + 1, n, Gap(n - GAP, GAP), Accepted(n));
    }
  }

  /** A second altered envelope makes the receiver store keys ahead once more. With these, two more
      messages come in and the receiving index stays. */
  lemma AcceptsTwoMore(p: View -> bool) returns (v: View)
    requires Closed(p) && p(View(2 * GAP + 1, 2 * GAP - 1, Gap(GAP - 1, GAP), Accepted(2 * GAP - 1)))
    ensures p(v) && v.sent == 2 * GAP + 1 && v.accepted == Accepted(2 * GAP + 1) && GAP - 1 in v.keys
  {
    v := View(2 * GAP + 1, 2 * GAP - 1, Gap(GAP - 1, GAP), Accepted(2 * GAP - 1));
    assert 2 * GAP !in v.accepted && 2 * GAP - 1 !in v.accepted;
    assert CanDisturb(v, 3 * GAP - 1);
    v := Disturb(v, 3 * GAP - 1);
    assert p(v) && CanUse(v, 2 * GAP - 1);
    v := Use(v, 2 * GAP - 1);
    assert p(v);
    AcceptedExtends(2 * GAP - 1);
    assert 2 * GAP !in v.accepted && CanUse(v, 2 * GAP);
    v := Use(v, 2 * GAP);
    AcceptedExtends(2 * GAP);
  }

  /** By now message 511 is forgotten. */
  lemma IsForgotten()
    ensures GAP - 1 !in LastN(Accepted(2 * GAP + 1), MAX_SEEN_MESSAGE_IDS)
  {
    var accepted := Accepted(2 * GAP + 1);
    assert |accepted| == MAX_SEEN_MESSAGE_IDS + 1;
    assert accepted[1..] == Range(0, GAP - 1) + Range(GAP, 2 * GAP + 1);
  }

  lemma Twice(p: View -> bool) returns (v: View)
    requires Closed(p) && p(View(2 * GAP + 1, 0, {}, []))
    ensures p(v) && !Distinct(v.accepted)
  {
    Begins(p);
    AcceptsEarlier(p, GAP - 1);
    Jumps(p);
    AcceptsLater(p, 2 * GAP - 1);
    v := AcceptsTwoMore(p);
    IsForgotten();
    assert CanUse(v, GAP - 1);
    v := Use(v, GAP - 1);
    assert v.accepted[0] == GAP - 1 && v.accepted[|v.accepted| - 1] == GAP - 1;
  }

  lemma SeenIsClosed(prims: Primitives, start: Link)
    ensures Closed(v => Seen(prims, start, v))
  {
    forall v, i | Seen(prims, start, v) && CanUse(v, i)
      ensures Seen(prims, start, Use(v, i))
    {
      SeenUse(prims, start, v, i);
    }
    forall v, i | Seen(prims, start, v) && CanMove(v, i)
      ensures Seen(prims, start, Move(v, i))
    {
      SeenMove(prims, start, v, i);
    }
    forall v, i | Seen(prims, start, v) && CanDisturb(v, i)
      ensures Seen(prims, start, Disturb(v, i))
    {
      SeenDisturb(prims, start, v, i);
    }
  }

  /** Between any two contacts there is a run, over a store that shares its key map, in which one index
      is accepted twice. */
  lemma AcceptedTwice(prims: Primitives, senderID: Bytes, receiverID: Bytes, key: Bytes)
    requires prims.Sound() && senderID != receiverID
    ensures var start := Start(prims, senderID, receiverID, key);
            exists steps :: SharedAdmissibleRun(prims, start, steps)
                            && !Distinct(SharedRun(prims, start, steps).accepted)
  {
    var start := Start(prims, senderID, receiverID, key);
    SentIsSeen(prims, senderID, receiverID, key);
    SeenIsClosed(prims, start);
    var v := Twice(v => Seen(prims, start, v));
    var link :| Shows(prims, start, link, v);
  }

  lemma SentIsSeen(prims: Primitives, senderID: Bytes, receiverID: Bytes, key: Bytes)
    requires prims.Sound() && senderID != receiverID
    ensures Seen(prims, Start(prims, senderID, receiverID, key), View(2 * GAP + 1, 0, {}, []))
  {
    var start := Start(prims, senderID, receiverID, key);
    assert SharedAdmissibleRun(prims, start, []) && SharedRun(prims, start, []) == start;
    SharedReachableInv(prims, senderID, receiverID, key, []);
    assert start.sender.sessionID[0] == 's';
    var sent := Sends(prims, start, 2 * GAP + 1);
    assert Shows(prims, start, sent, View(2 * GAP + 1, 0, {}, []));
  }
}
