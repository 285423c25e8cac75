/** `walletSync.ts`: the last mined nonce per account, and the wait for the wallet to have seen it. */
module WalletSync {
  import opened Wrappers

  const TTL_MS: nat := 120_000

  datatype MinedTx = MinedTx(nonce: nat, hash: nat, at: nat)

  type Memory = map<string, MinedTx>

  // ---------------------------------------------------------------- the remembered nonce

  predicate Expired(m: Memory, key: string, now: nat)
    requires key in m
  {
    now > m[key].at + TTL_MS
  }

  function Recall(m: Memory, key: string, now: nat): Option<MinedTx> {
    if key in m && !Expired(m, key, now) then Some(m[key]) else None
  }

  /** A read drops the entry it finds expired. */
  function AfterRecall(m: Memory, key: string, now: nat): Memory {
    if key in m && Expired(m, key, now) then m - {key} else m
  }

  function Noted(m: Memory, key: string, nonce: nat, hash: nat, now: nat): Memory {
    var cur := Recall(m, key, now);
    if cur.Some? && cur.value.nonce > nonce then AfterRecall(m, key, now)
    else AfterRecall(m, key, now)[key := MinedTx(nonce, hash, now)]
  }

  /** An entry counts for two minutes; a read that finds it older forgets it, and touches no other. */
  lemma RecallMeans(m: Memory, key: string, now: nat)
    ensures Recall(m, key, now) == if key in m && now <= m[key].at + 120_000 then Some(m[key]) else None
    ensures forall k :: k in AfterRecall(m, key, now) <==> k in m && (k == key ==> now <= m[k].at + 120_000)
    ensures forall k :: k in AfterRecall(m, key, now) ==> AfterRecall(m, key, now)[k] == m[k]
  {
  }

  /** A note is kept unless a higher nonce is still remembered; it touches no other account. */
  lemma NotedMeans(m: Memory, key: string, nonce: nat, hash: nat, now: nat)
    ensures var m' := Noted(m, key, nonce, hash, now);
            && m'.Keys == m.Keys + {key}
            && (forall k :: k in m && k != key ==> m'[k] == m[k])
            && m'[key] == if key in m && now <= m[key].at + 120_000 && m[key].nonce > nonce then m[key]
                          else MinedTx(nonce, hash, now)
  {
  }

  class LastMined {
    var lastMined: Memory

    constructor ()
      ensures lastMined == map[]
    {
      lastMined := map[];
    }

    method LastMinedOf(key: string, now: nat) returns (m: Option<MinedTx>)
      modifies this
      ensures m == Recall(old(lastMined), key, now)
      ensures lastMined == AfterRecall(old(lastMined), key, now)
    {
      if key in lastMined {
        if Expired(lastMined, key, now) {
          lastMined := lastMined - {key};
          return None;
        }
        return Some(lastMined[key]);
      }
      return None;
    }

    method NoteMined(key: string, nonce: nat, hash: nat, now: nat)
      modifies this
      ensures lastMined == Noted(old(lastMined), key, nonce, hash, now)
    {
      var cur := LastMinedOf(key, now);
      if cur.Some? && cur.value.nonce > nonce {
        return;
      }
      lastMined := lastMined[key := MinedTx(nonce, hash, now)];
    }
  }

  datatype Use = Read(key: string, at: nat) | Note(key: string, nonce: nat, hash: nat, at: nat)

  function After(m: Memory, u: Use): Memory {
    match u
    case Read(key, at) => AfterRecall(m, key, at)
    case Note(key, nonce, hash, at) => Noted(m, key, nonce, hash, at)
  }

  function AfterAll(m: Memory, us: seq<Use>): Memory
    decreases |us|
  {
    if us == [] then m else AfterAll(After(m, us[0]), us[1..])
  }

  /** Every use happens between two clock readings. */
  predicate Within(us: seq<Use>, since: nat, until: nat) {
    forall k :: 0 <= k < |us| ==> since <= us[k].at <= until
  }

  /**
   * Whatever flows in the tab note and read in between, for whatever accounts, an account's remembered nonce is still
   * there and no lower for the whole lifetime (`since` to `since + TTL_MS`) of an entry noted at `since` or later.
   */
  lemma {:induction false} RememberedNonceNeverDecreases(m: Memory, us: seq<Use>, key: string, since: nat, until: nat)
    requires key in m && since <= m[key].at && until <= since + TTL_MS && Within(us, since, until)
    ensures var now := Recall(AfterAll(m, us), key, until);
            now.Some? && now.value.nonce >= m[key].nonce
    decreases |us|
  {
    if us != [] {
      var m' := After(m, us[0]);
      assert since <= us[0].at <= until;
      assert key in m' && m'[key].nonce >= m[key].nonce && since <= m'[key].at;
      assert forall k :: 0 <= k < |us[1..]| ==> us[1..][k] == us[k + 1];
      RememberedNonceNeverDecreases(m', us[1..], key, since, until);
    }
  }

  /** A note is remembered: right after it, the account's nonce is at least the one just mined. */
  lemma NoteIsRemembered(m: Memory, key: string, nonce: nat, hash: nat, now: nat)
    ensures var r := Recall(Noted(m, key, nonce, hash, now), key, now);
            r.Some? && r.value.nonce >= nonce &&
            (forall k :: k != key && k in m ==>
               k in Noted(m, key, nonce, hash, now) && Noted(m, key, nonce, hash, now)[k] == m[k])
  {
  }

  // ---------------------------------------------------------------- the wait

  /** When the abort signal or the timer ends the wait, relative to one check and the pause after it. */
  datatype Stop = No | DuringCheck | DuringPause

  /**
   * One round: the wallet's own transaction count (`None` when the read fails), and whether the wait was ended
   * meanwhile.
   */
  datatype Poll = Poll(count: Option<nat>, stop: Stop)

  datatype Check = InStep | Behind | Unreadable

  function CheckOf(p: Poll, target: nat): Check {
    if p.stop == DuringCheck then Behind
    else match p.count case None => Unreadable case Some(c) => if c >= target then InStep else Behind
  }

  /** The wait is still on when round `k` starts. */
  predicate StillOn(polls: seq<Poll>, k: nat) {
    k <= |polls| && forall j :: 0 <= j < k ==> polls[j].stop == No
  }

  predicate SawItAt(polls: seq<Poll>, k: nat, prev: nat) {
    k < |polls| && StillOn(polls, k) && CheckOf(polls[k], prev + 1) == InStep
  }

  /** The wait is on at round `k`, nothing cuts its check short, and the wallet's own count is past the last nonce. */
  predicate InStepAt(polls: seq<Poll>, k: nat, prev: nat) {
    && k < |polls| && (forall j :: 0 <= j < k ==> polls[j].stop == No)
    && polls[k].stop != DuringCheck && polls[k].count.Some? && polls[k].count.value > prev
  }

  /** The first check was answered, and its count is not past the last nonce. */
  predicate BehindAtFirst(polls: seq<Poll>, prev: nat)
    requires polls != []
  {
    polls[0].stop != DuringCheck && polls[0].count.Some? && polls[0].count.value <= prev
  }

  /** A check says "in step" on exactly that: a count past the previous nonce that the wallet itself reported. */
  lemma SyncedSawTheCount(polls: seq<Poll>, k: nat, prev: nat)
    ensures SawItAt(polls, k, prev) <==> InStepAt(polls, k, prev)
  {
  }

  /**
   * `polls` is what the wallet answers round by round until the timer fires, so its length bounds the wait. A wallet
   * whose first answer cannot be read is not waited for; later failed reads are asked again.
   */
  method WaitForWalletNonce(prev: nat, aborted: bool, polls: seq<Poll>) returns (synced: bool, slowCalls: nat)
    requires polls != []
    ensures synced <==> !aborted && (InStepAt(polls, 0, prev) ||
                        (BehindAtFirst(polls, prev) && exists k :: InStepAt(polls, k, prev)))
    ensures slowCalls == if !aborted && BehindAtFirst(polls, prev) then 1 else 0
  {
    synced, slowCalls := false, 0;
    if aborted {
      return;
    }
    var over := polls[0].stop == DuringCheck;
    var first := CheckOf(polls[0], prev + 1);
    if first != Behind || over {
      synced := first == InStep;
      assert synced ==> InStepAt(polls, 0, prev);
      assert over ==> forall k: nat :: k > 0 ==> !StillOn(polls, k);
      return;
    }
    slowCalls := slowCalls + 1;
    var k := 0;
    while !over
      invariant k < |polls| && slowCalls == 1
      invariant forall j :: 0 <= j < k ==> polls[j].stop == No
      invariant forall j :: 0 <= j <= k ==> !InStepAt(polls, j, prev)
      invariant over ==> polls[k].stop != No || k == |polls| - 1
      invariant !over ==> polls[k].stop != DuringCheck
      decreases |polls| - k, if over then 0 else 1
    {
      if polls[k].stop == DuringPause || k == |polls| - 1 {
        over := true;
      } else {
        k := k + 1;
        if CheckOf(polls[k], prev + 1) == InStep {
          assert InStepAt(polls, k, prev);
          synced := true;
          return;
        }
        over := polls[k].stop == DuringCheck;
      }
    }
    assert forall j: nat :: InStepAt(polls, j, prev) ==> j <= k;
  }

  // ---------------------------------------------------------------- no nonce twice

  /**
   * Between one step and the next: when its transaction was noted, what else in the tab noted or read meanwhile, when
   * the next step was prepared, and what the wallet answered, round `k` being the one that ended the wait.
   */
  datatype Between = Between(minedAt: nat, hash: nat, uses: seq<Use>, preparedAt: nat, polls: seq<Poll>, k: nat)

  /** The entry the next step's preparation goes by. */
  function PrevFor(m: Memory, key: string, nonce: nat, b: Between): Option<MinedTx> {
    Recall(AfterAll(Noted(m, key, nonce, b.hash, b.minedAt), b.uses), key, b.preparedAt)
  }

  /**
   * The next step is prepared within the lifetime of the entry the note left (its own, or a higher nonce's it found)
   * and prompted once the wait answered true; the wallet, whose own count never moves back, signs `next`, which is no
   * lower than the count it had shown.
   */
  predicate PromptedInStep(m: Memory, key: string, nonce: nat, b: Between, next: nat) {
    && (key in m ==> m[key].at <= b.minedAt)
    && b.minedAt <= b.preparedAt <= Noted(m, key, nonce, b.hash, b.minedAt)[key].at + TTL_MS
    && Within(b.uses, b.minedAt, b.preparedAt)
    && (PrevFor(m, key, nonce, b).Some? ==>
          InStepAt(b.polls, b.k, PrevFor(m, key, nonce, b).value.nonce) && b.polls[b.k].count.value <= next)
  }

  /** The step before is always remembered there, so the nonce signed next is larger. */
  lemma NextNonceIsLarger(m: Memory, key: string, nonce: nat, b: Between, next: nat)
    requires PromptedInStep(m, key, nonce, b, next)
    ensures PrevFor(m, key, nonce, b).Some? && next > nonce
  {
    var noted := Noted(m, key, nonce, b.hash, b.minedAt);
    NoteIsRemembered(m, key, nonce, b.hash, b.minedAt);
    RememberedNonceNeverDecreases(noted, b.uses, key, noted[key].at, b.preparedAt);
  }

  /**
   * In a flow whose steps were each prompted in step with the wallet, no nonce is used twice: they strictly increase.
   */
  lemma {:induction false} NoncesStrictlyIncrease(ms: seq<Memory>, key: string, nonces: seq<nat>, bs: seq<Between>,
                                                  i: nat, j: nat)
    requires |nonces| == |ms| + 1 == |bs| + 1
    requires forall k :: 0 <= k < |ms| ==> PromptedInStep(ms[k], key, nonces[k], bs[k], nonces[k + 1])
    requires i < j < |nonces|
    ensures nonces[i] < nonces[j]
    decreases j
  {
    NextNonceIsLarger(ms[j - 1], key, nonces[j - 1], bs[j - 1], nonces[j]);
    if i < j - 1 {
      NoncesStrictlyIncrease(ms, key, nonces, bs, i, j - 1);
    }
  }
}
