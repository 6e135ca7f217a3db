/** Coins that an account owns but cannot use before a time. They are paid out when the time has
    come, or earlier by agreement, and a queue by time says whom to look at. */
module LockedCoins {
  import opened ByteKeys
  import opened KVStores
  import opened Ledgers
  import opened Sums
  import opened UnlockQueue

  /** A supervised coin names its sender, a supervisor (or none, "") and a reward. */
  datatype LockedCoin = LockedCoin(denom: Denom, amount: nat, unlockTime: nat, from: Addr, supervisor: Addr,
                                   reward: nat)

  datatype Coin = Coin(denom: Denom, amount: nat)

  type Locks = map<Addr, seq<LockedCoin>>

  type SendLocks = map<Denom, int>

  // ------------------------------------------------------------ sums

  ghost function CoinIn(d: Denom): Coin -> int { (c: Coin) => if c.denom == d then c.amount else 0 }

  function LockIn(d: Denom): LockedCoin -> int { (c: LockedCoin) => if c.denom == d then c.amount else 0 }

  ghost function DueIn(d: Denom, time: int): LockedCoin -> int
  {
    (c: LockedCoin) => if c.denom == d && c.unlockTime <= time then c.amount else 0
  }

  function AmountOf(cs: seq<LockedCoin>, d: Denom): int { SeqSum(cs, LockIn(d)) }

  ghost function DueOf(cs: seq<LockedCoin>, d: Denom, time: int): int { SeqSum(cs, DueIn(d, time)) }

  ghost function LocksIn(d: Denom): (Addr, seq<LockedCoin>) -> int { (a: Addr, cs: seq<LockedCoin>) => AmountOf(cs, d) }

  /** What all accounts together have locked of a denomination. */
  ghost function TotalLocked(locked: Locks, d: Denom): int { Sum(locked, LocksIn(d)) }

  function CoinsOf(locked: Locks, a: Addr): seq<LockedCoin> { if a in locked then locked[a] else [] }

  /** The coins that stay locked after `time`, in their order. */
  function Later(cs: seq<LockedCoin>, time: int): seq<LockedCoin>
  {
    if cs == [] then []
    else if cs[|cs| - 1].unlockTime <= time then Later(cs[..|cs| - 1], time)
    else Later(cs[..|cs| - 1], time) + [cs[|cs| - 1]]
  }

  lemma {:induction false} DueAndLater(cs: seq<LockedCoin>, d: Denom, time: int)
    ensures DueOf(cs, d, time) + AmountOf(Later(cs, time), d) == AmountOf(cs, d)
  {
    if cs != [] {
      var front, c := cs[..|cs| - 1], cs[|cs| - 1];
      DueAndLater(front, d, time);
      if c.unlockTime > time { SeqSumSnoc(Later(front, time), c, LockIn(d)); }
    }
  }

  lemma {:induction false} LaterTimes(cs: seq<LockedCoin>, time: int, t: int)
    ensures HasTime(Later(cs, time), t) <==> HasTime(cs, t) && t > time
  {
    if cs != [] {
      var front, c := cs[..|cs| - 1], cs[|cs| - 1];
      LaterTimes(front, time, t);
      assert cs == front + [c];
      HasTimeSnoc(front, c, t);
      if c.unlockTime > time { HasTimeSnoc(Later(front, time), c, t); }
    }
  }

  /** What is left has nothing due. */
  lemma {:induction false} LaterTwice(cs: seq<LockedCoin>, time: int, d: Denom)
    ensures Later(Later(cs, time), time) == Later(cs, time) && DueOf(Later(cs, time), d, time) == 0
  {
    if cs != [] {
      var front, c := cs[..|cs| - 1], cs[|cs| - 1];
      LaterTwice(front, time, d);
      if c.unlockTime > time {
        var next := Later(front, time) + [c];
        assert next[..|next| - 1] == Later(front, time);
        SeqSumSnoc(Later(front, time), c, DueIn(d, time));
      }
    }
  }

  /** Coins of which none is due all stay locked. */
  lemma {:induction false} NothingDue(cs: seq<LockedCoin>, time: int, d: Denom)
    requires forall t | t <= time :: !HasTime(cs, t)
    ensures Later(cs, time) == cs && DueOf(cs, d, time) == 0
  {
    if cs != [] {
      var front, c := cs[..|cs| - 1], cs[|cs| - 1];
      assert cs == front + [c];
      forall t | t <= time ensures !HasTime(front, t) { HasTimeSnoc(front, c, t); }
      HasTimeSnoc(front, c, c.unlockTime);
      NothingDue(front, time, d);
    }
  }

  lemma SeqSumSnoc<T>(s: seq<T>, x: T, w: T -> int)
    ensures SeqSum(s + [x], w) == SeqSum(s, w) + w(x)
  {
    assert (s + [x])[..|s + [x]| - 1] == s;
  }

  predicate HasTime(cs: seq<LockedCoin>, t: int)
  {
    exists i :: 0 <= i < |cs| && cs[i].unlockTime == t
  }

  lemma HasTimeSnoc(cs: seq<LockedCoin>, c: LockedCoin, t: int)
    ensures HasTime(cs + [c], t) <==> HasTime(cs, t) || c.unlockTime == t
  {
    assert (cs + [c])[|cs|] == c;
    if HasTime(cs, t) {
      var i :| 0 <= i < |cs| && cs[i].unlockTime == t;
      assert (cs + [c])[i] == cs[i];
    }
    if HasTime(cs + [c], t) {
      var i :| 0 <= i < |cs + [c]| && (cs + [c])[i].unlockTime == t;
      assert i < |cs| ==> cs[i] == (cs + [c])[i];
    }
  }

  // ------------------------------------------------------------ invariants

  /** The queue has an entry at a time for an account exactly if the account has a coin locked
      until that time. */
  ghost predicate Queued(data: map<Key, Addr>, locked: Locks, f: TimeFormat)
  {
    && (forall a, t: nat | HasTime(CoinsOf(locked, a), t) :: t <= MAX_TIME && IsQueued(data, f, t, a))
    && (forall k | k in data :: IsEntry(data, locked, f, k))
  }

  ghost predicate IsQueued(data: map<Key, Addr>, f: TimeFormat, t: nat, a: Addr)
  {
    QueueKey(f, t, a) in data && data[QueueKey(f, t, a)] == a
  }

  ghost predicate IsEntry(data: map<Key, Addr>, locked: Locks, f: TimeFormat, k: Key)
    requires k in data
  {
    exists t: nat :: t <= MAX_TIME && k == QueueKey(f, t, data[k]) && HasTime(CoinsOf(locked, data[k]), t)
  }

  /** Each token counts what is locked of it, and only tokens can be locked. */
  ghost predicate Counted(sendLock: SendLocks, locked: Locks)
  {
    forall d :: LockCount(sendLock, d) == TotalLocked(locked, d)
  }

  function LockCount(sendLock: SendLocks, d: Denom): int { if d in sendLock then sendLock[d] else 0 }

  /** All coins of a denomination: spendable, frozen and locked. */
  ghost function Worth(l: Ledger, locked: Locks, d: Denom): int { Supply(l, d) + TotalLocked(locked, d) }

  ghost predicate SameWorth(l: Ledger, locked: Locks, m: Ledger, locked': Locks)
  {
    forall d :: Worth(m, locked', d) == Worth(l, locked, d)
  }

  lemma LockedUpdate(locked: Locks, a: Addr, cs: seq<LockedCoin>, d: Denom)
    ensures TotalLocked(locked[a := cs], d) ==
            TotalLocked(locked, d) - AmountOf(CoinsOf(locked, a), d) + AmountOf(cs, d)
  {
    SumUpdate(locked, LocksIn(d), a, cs);
  }

  /** What the change of one account's coins at one time must do to the queue. */
  ghost predicate Adjusted(data: map<Key, Addr>, after: map<Key, Addr>, f: TimeFormat, a: Addr, t: nat, has: bool)
  {
    after == if has then data[QueueKey(f, t, a) := a] else data - {QueueKey(f, t, a)}
  }

  lemma StillQueued(data: map<Key, Addr>, after: map<Key, Addr>, f: TimeFormat, width: nat, a: Addr, t: nat, has: bool,
                    b: Addr, u: nat)
    requires Sortable(f, width) && t <= MAX_TIME && u <= MAX_TIME && Adjusted(data, after, f, a, t, has)
    requires if b == a && u == t then has else IsQueued(data, f, u, b)
    ensures IsQueued(after, f, u, b)
  {
    hide QueueKey;
    if QueueKey(f, u, b) == QueueKey(f, t, a) { QueueKeyInjective(f, width, u, b, t, a); }
  }

  /** The queue after one account's coins changed, with the entry of one time adjusted. */
  lemma QueueAfter(data: map<Key, Addr>, locked: Locks, f: TimeFormat, width: nat, a: Addr, cs: seq<LockedCoin>, t: nat,
                   after: map<Key, Addr>)
    requires Sortable(f, width) && Queued(data, locked, f) && t <= MAX_TIME
    requires forall u: nat | u != t :: HasTime(cs, u) <==> HasTime(CoinsOf(locked, a), u)
    requires Adjusted(data, after, f, a, t, HasTime(cs, t))
    ensures Queued(after, locked[a := cs], f)
  {
    hide QueueKey, HasTime, IsQueued, Sortable, IsEntry, Adjusted;
    var next := locked[a := cs];
    forall b, u: nat | HasTime(CoinsOf(next, b), u) ensures u <= MAX_TIME && IsQueued(after, f, u, b) {
      if b != a || u != t { assert HasTime(CoinsOf(locked, b), u); }
      StillQueued(data, after, f, width, a, t, HasTime(cs, t), b, u);
    }
    forall k | k in after ensures IsEntry(after, next, f, k) {
      StillEntry(data, locked, f, a, cs, t, after, k);
    }
  }

  lemma StillEntry(data: map<Key, Addr>, locked: Locks, f: TimeFormat, a: Addr, cs: seq<LockedCoin>, t: nat,
                   after: map<Key, Addr>, k: Key)
    requires forall u: nat | u != t :: HasTime(cs, u) <==> HasTime(CoinsOf(locked, a), u)
    requires Adjusted(data, after, f, a, t, HasTime(cs, t)) && t <= MAX_TIME
    requires k in after && (k in data ==> IsEntry(data, locked, f, k))
    ensures IsEntry(after, locked[a := cs], f, k)
  {
    hide QueueKey, HasTime;
    var next := locked[a := cs];
    if k == QueueKey(f, t, a) {
      assert HasTime(CoinsOf(next, after[k]), t);
    } else {
      var u: nat :| u <= MAX_TIME && k == QueueKey(f, u, data[k]) && HasTime(CoinsOf(locked, data[k]), u);
      assert HasTime(CoinsOf(next, after[k]), u);
    }
  }

  // ------------------------------------------------------------ what is due

  /** The keys of a scan up to `time` belong to accounts with a coin due, and no such account is
      missed. */
  lemma DueScan(data: map<Key, Addr>, locked: Locks, f: TimeFormat, width: nat, time: nat, keys: seq<Key>)
    requires Sortable(f, width) && Queued(data, locked, f) && time <= MAX_TIME
    requires Listing(data, Prefix(), PrefixEnd(TimePrefix(f, time)), keys)
    ensures forall i | 0 <= i < |keys| :: keys[i] in data && data[keys[i]] in locked
    ensures forall a, t | t <= time && HasTime(CoinsOf(locked, a), t) ::
            exists i :: 0 <= i < |keys| && keys[i] in data && data[keys[i]] == a
  {
    hide QueueKey, HasTime, InRange, TimePrefix;
    forall i | 0 <= i < |keys| ensures keys[i] in data && data[keys[i]] in locked {
      assert keys[i] in keys;
      assert IsEntry(data, locked, f, keys[i]);
      NoTimeInNothing();
    }
    forall a, t | t <= time && HasTime(CoinsOf(locked, a), t)
      ensures exists i :: 0 <= i < |keys| && keys[i] in data && data[keys[i]] == a {
      TimesAreNatural(CoinsOf(locked, a), t);
      assert IsQueued(data, f, t, a);
      DueRange(f, width, t, a, time);
      assert QueueKey(f, t, a) in keys;
    }
  }

  lemma NoTimeInNothing()
    ensures forall t :: !HasTime([], t)
  {
  }

  lemma TimesAreNatural(cs: seq<LockedCoin>, t: int)
    requires HasTime(cs, t)
    ensures t >= 0
  {
  }

  /** Every account's coins that were due are gone from its locked coins. */
  ghost predicate PaidUp(before: Locks, after: Locks, paid: set<Addr>, time: int)
  {
    && after.Keys == before.Keys
    && forall a | a in before :: after[a] == if a in paid then Later(before[a], time) else before[a]
  }

  /** The queue once all accounts with a coin due were paid and the scanned keys deleted. */
  lemma QueueAfterDue(data: map<Key, Addr>, locked: Locks, f: TimeFormat, width: nat, time: nat, keys: seq<Key>,
                      next: Locks)
    requires Sortable(f, width) && Queued(data, locked, f) && time <= MAX_TIME
    requires Listing(data, Prefix(), PrefixEnd(TimePrefix(f, time)), keys)
    requires next.Keys == locked.Keys && forall a | a in locked :: next[a] == Later(locked[a], time)
    ensures Queued(data - (set k | k in keys), next, f)
  {
    hide QueueKey, HasTime, InRange, TimePrefix;
    var after := data - (set k | k in keys);
    NoTimeInNothing();
    forall a, t: nat ensures HasTime(CoinsOf(next, a), t) <==> HasTime(CoinsOf(locked, a), t) && t > time {
      LaterTimes(CoinsOf(locked, a), time, t);
    }
    forall a, t: nat | HasTime(CoinsOf(next, a), t) ensures t <= MAX_TIME && IsQueued(after, f, t, a) {
      assert t <= MAX_TIME && IsQueued(data, f, t, a);
      DueRange(f, width, t, a, time);
    }
    forall k | k in after ensures IsEntry(after, next, f, k) {
      assert IsEntry(data, locked, f, k);
      var t: nat :| t <= MAX_TIME && k == QueueKey(f, t, data[k]) && HasTime(CoinsOf(locked, data[k]), t);
      DueRange(f, width, t, data[k], time);
      assert k !in keys;
      assert HasTime(CoinsOf(next, after[k]), t);
    }
  }
}
