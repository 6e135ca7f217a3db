/** Sending locked coins, unlocking them early, and paying them out at the end of a block. */
module Locking {
  import opened ByteKeys
  import opened KVStores
  import Decimals
  import opened Ledgers
  import opened LockedCoins
  import opened Sums
  import opened UnlockQueue

  const NANOSECONDS: int := 1_000_000_000
  const DAY: int := 86_400_000_000_000

  /** What locking costs beyond a free time, in nanoseconds and in CET a day. */
  datatype LockParams = LockParams(freeTime: nat, feePerDay: nat)

  /** The fee for a lock, unless it would be too large. */
  function LockFee(unlockTime: int, now: int, params: LockParams): (fee: int)
    ensures fee >= -1
  {
    var lockDuration := (unlockTime - now) * NANOSECONDS;
    if lockDuration > params.freeTime && params.feePerDay > 0 then
      var exceededDays := (lockDuration - params.freeTime - 1) / DAY + 1;
      if exceededDays > Decimals.MAX_INT64 / params.feePerDay then -1 else params.feePerDay * exceededDays
    else 0
  }

  /** A lock is free exactly within the free time or without a price; beyond it every day begun
      is paid in full and no day more, and it is refused exactly if that exceeds 64 bits. */
  lemma LockFeeCountsDays(unlockTime: int, now: int, params: LockParams, days: int)
    ensures var over := (unlockTime - now) * NANOSECONDS - params.freeTime;
            && (LockFee(unlockTime, now, params) == 0 <==> over <= 0 || params.feePerDay == 0)
            && (0 < over && 0 < params.feePerDay && (days - 1) * DAY < over <= days * DAY ==>
                LockFee(unlockTime, now, params) ==
                if params.feePerDay * days > Decimals.MAX_INT64 then -1 else params.feePerDay * days)
  {
    var over, price := (unlockTime - now) * NANOSECONDS - params.freeTime, params.feePerDay;
    if over > 0 && price > 0 {
      var begun := (over - 1) / DAY + 1;
      assert begun >= 1;
      Decimals.MulMonotone(1, begun, price);
      Decimals.DivReaches(Decimals.MAX_INT64, price, begun);
      if (days - 1) * DAY < over <= days * DAY { Decimals.DivUnique(over - 1, DAY, days - 1); }
    }
  }

  function LockOf(c: Coin, unlockTime: nat, from: Addr, supervisor: Addr, reward: nat, isSupervised: bool): LockedCoin
  {
    if isSupervised then LockedCoin(c.denom, c.amount, unlockTime, from, supervisor, reward)
    else LockedCoin(c.denom, c.amount, unlockTime, "", "", 0)
  }

  function LocksOf(amt: seq<Coin>, unlockTime: nat, from: Addr, supervisor: Addr, reward: nat,
                   isSupervised: bool): (cs: seq<LockedCoin>)
    ensures |cs| == |amt|
  {
    seq(|amt|, i requires 0 <= i < |amt| => LockOf(amt[i], unlockTime, from, supervisor, reward, isSupervised))
  }

  /** A supervised lock can be released early by exactly the account, supervisor, time and reward
      that it was made with; any other lock names nobody who could. */
  lemma LockCanBeUndone(cs: seq<LockedCoin>, amt: seq<Coin>, unlockTime: nat, from: Addr, supervisor: Addr,
                        reward: nat, isSupervised: bool, i: nat)
    requires i < |amt|
    ensures (if isSupervised then LockedCoin(amt[i].denom, amt[i].amount, unlockTime, from, supervisor, reward)
             else LockedCoin(amt[i].denom, amt[i].amount, unlockTime, "", "", 0))
            in cs + LocksOf(amt, unlockTime, from, supervisor, reward, isSupervised)
  {
    var locks := LocksOf(amt, unlockTime, from, supervisor, reward, isSupervised);
    assert (cs + locks)[|cs| + i] == locks[i] == LockOf(amt[i], unlockTime, from, supervisor, reward, isSupervised);
  }

  ghost function PaidOf(amt: seq<Coin>, d: Denom): int { SeqSum(amt, CoinIn(d)) }

  lemma {:induction false} LocksAddUp(cs: seq<LockedCoin>, amt: seq<Coin>, unlockTime: nat, from: Addr,
                                      supervisor: Addr, reward: nat, isSupervised: bool, d: Denom)
    ensures AmountOf(cs + LocksOf(amt, unlockTime, from, supervisor, reward, isSupervised), d) ==
            AmountOf(cs, d) + PaidOf(amt, d)
  {
    var locks := LocksOf(amt, unlockTime, from, supervisor, reward, isSupervised);
    if amt == [] {
      assert cs + locks == cs;
    } else {
      var front := LocksOf(amt[..|amt| - 1], unlockTime, from, supervisor, reward, isSupervised);
      var last := LockOf(amt[|amt| - 1], unlockTime, from, supervisor, reward, isSupervised);
      assert cs + locks == (cs + front) + [last];
      LocksAddUp(cs, amt[..|amt| - 1], unlockTime, from, supervisor, reward, isSupervised, d);
      SeqSumSnoc(cs + front, last, LockIn(d));
    }
  }

  /** New coins of one time bring that time and no other. */
  lemma LocksBringTime(cs: seq<LockedCoin>, amt: seq<Coin>, unlockTime: nat, from: Addr, supervisor: Addr, reward: nat,
                       isSupervised: bool, t: int)
    ensures HasTime(cs + LocksOf(amt, unlockTime, from, supervisor, reward, isSupervised), t)
       <==> HasTime(cs, t) || (t == unlockTime && amt != [])
  {
    var locks := LocksOf(amt, unlockTime, from, supervisor, reward, isSupervised);
    var all := cs + locks;
    assert forall i | 0 <= i < |amt| ::
           all[|cs| + i] == locks[i] == LockOf(amt[i], unlockTime, from, supervisor, reward, isSupervised);
    if HasTime(cs, t) {
      var i :| 0 <= i < |cs| && cs[i].unlockTime == t;
      assert all[i] == cs[i];
    }
    if t == unlockTime && amt != [] { assert all[|cs| + 0].unlockTime == t; }
    if HasTime(all, t) {
      var i :| 0 <= i < |all| && all[i].unlockTime == t;
      if i < |cs| { assert cs[i] == all[i]; } else { assert all[|cs| + (i - |cs|)].unlockTime == unlockTime; }
    }
  }

  /** Coins added to one account and nothing else. */
  ghost predicate Received(l: Ledger, m: Ledger, a: Addr, d: Denom, n: nat)
  {
    && m.frozen == l.frozen && m.known == l.known
    && (forall k :: Bal(m.coins, k) == Bal(l.coins, k) + If(k == Acct(a, d), n))
    && (forall e :: Supply(m, e) == Supply(l, e) + If(e == d, n))
  }

  lemma ReceiveMoves(l: Ledger, a: Addr, d: Denom, n: nat)
    ensures Received(l, l.(coins := Add(l.coins, Acct(a, d), n)), a, d, n)
  {
    forall e ensures Supply(l.(coins := Add(l.coins, Acct(a, d), n)), e) == Supply(l, e) + If(e == d, n) {
      AddRaisesSum(l.coins, Acct(a, d), n, e);
    }
  }

  /** Coins of several denominations taken from one account and nothing else. */
  ghost predicate TakenFrom(l: Ledger, m: Ledger, a: Addr, amt: seq<Coin>)
  {
    && m.frozen == l.frozen && m.known == l.known
    && (forall k :: Bal(m.coins, k) == Bal(l.coins, k) - (if k.addr == a then PaidOf(amt, k.denom) else 0))
    && (forall e :: Supply(m, e) == Supply(l, e) - PaidOf(amt, e))
  }

  lemma TakeOneMore(l: Ledger, m: Ledger, a: Addr, amt: seq<Coin>, c: Coin)
    requires TakenFrom(l, m, a, amt) && c.amount <= Bal(m.coins, Acct(a, c.denom))
    ensures TakenFrom(l, m.(coins := Sub(m.coins, Acct(a, c.denom), c.amount)), a, amt + [c])
  {
    hide PaidOf, Supply;
    var n := m.(coins := Sub(m.coins, Acct(a, c.denom), c.amount));
    forall k ensures Bal(n.coins, k) == Bal(l.coins, k) - (if k.addr == a then PaidOf(amt + [c], k.denom) else 0) {
      PaidOneMore(amt, c, k.denom);
    }
    forall e ensures Supply(n, e) == Supply(l, e) - PaidOf(amt + [c], e) {
      PaidOneMore(amt, c, e);
      SupplyOneLess(m, a, c, e);
    }
  }

  lemma PaidOneMore(amt: seq<Coin>, c: Coin, d: Denom)
    ensures PaidOf(amt + [c], d) == PaidOf(amt, d) + If(c.denom == d, c.amount)
  {
    SeqSumSnoc(amt, c, CoinIn(d));
  }

  lemma SupplyOneLess(m: Ledger, a: Addr, c: Coin, e: Denom)
    requires c.amount <= Bal(m.coins, Acct(a, c.denom))
    ensures Supply(m.(coins := Sub(m.coins, Acct(a, c.denom), c.amount)), e) ==
            Supply(m, e) - If(c.denom == e, c.amount)
  {
    SubLowersSum(m.coins, Acct(a, c.denom), c.amount, e);
  }

  /** A fee went from an account to the collector and nothing else moved. */
  ghost predicate FeePaid(l: Ledger, m: Ledger, from: Addr, fee: nat)
  {
    && m.frozen == l.frozen && m.known == l.known && SameSupply(l, m)
    && forall k ::
         Bal(m.coins, k) == Bal(l.coins, k) - If(k == Acct(from, CET), fee) + If(k == Acct(FEE_COLLECTOR, CET), fee)
  }

  /** The account can pay all of the coins. */
  ghost predicate Covers(l: Ledger, a: Addr, amt: seq<Coin>)
  {
    forall d :: PaidOf(amt, d) <= Bal(l.coins, Acct(a, d))
  }

  /** When coins may be locked: none of them is barred to the sender, all belong to known tokens,
      and the sender can pay the fee and then the coins. */
  ghost predicate CanLock(l: Ledger, counts: SendLocks, forbidden: Forbidden, from: Addr, amt: seq<Coin>, fee: int)
  {
    && (forall i | 0 <= i < |amt| :: !Forbids(forbidden, amt[i].denom, from) && amt[i].denom in counts)
    && fee >= 0 && CanSend(l, Nobody, from, CET, fee)
    && forall d :: PaidOf(amt, d) <= Bal(l.coins, Acct(from, d)) - If(d == CET && from != FEE_COLLECTOR, fee)
  }

  lemma CoversAfterFee(l: Ledger, m: Ledger, from: Addr, fee: nat, amt: seq<Coin>)
    requires FeePaid(l, m, from, fee)
    ensures Covers(m, from, amt) <==>
            forall d :: PaidOf(amt, d) <= Bal(l.coins, Acct(from, d)) - If(d == CET && from != FEE_COLLECTOR, fee)
  {
    forall d ensures Bal(m.coins, Acct(from, d)) ==
        Bal(l.coins, Acct(from, d)) - If(d == CET && from != FEE_COLLECTOR, fee) {}
  }

  lemma TakenIsCovered(l: Ledger, m: Ledger, a: Addr, amt: seq<Coin>)
    requires TakenFrom(l, m, a, amt)
    ensures Covers(l, a, amt)
  {
    forall d ensures PaidOf(amt, d) <= Bal(l.coins, Acct(a, d)) {
      assert Bal(m.coins, Acct(a, d)) >= 0;
    }
  }

  /** The coins up to one that cannot be paid are already too much. */
  lemma TooMuch(l: Ledger, m: Ledger, a: Addr, amt: seq<Coin>, i: nat)
    requires i < |amt| && TakenFrom(l, m, a, amt[..i]) && Bal(m.coins, Acct(a, amt[i].denom)) < amt[i].amount
    ensures !Covers(l, a, amt)
  {
    var d := amt[i].denom;
    assert amt[..i + 1] == amt[..i] + [amt[i]];
    PaidOneMore(amt[..i], amt[i], d);
    PaidMonotone(amt, i + 1, d);
    assert Bal(m.coins, Acct(a, d)) == Bal(l.coins, Acct(a, d)) - PaidOf(amt[..i], d);
    assert PaidOf(amt, d) > Bal(l.coins, Acct(a, d));
  }

  lemma {:induction false} PaidMonotone(amt: seq<Coin>, i: nat, d: Denom)
    requires i <= |amt|
    ensures PaidOf(amt[..i], d) <= PaidOf(amt, d)
  {
    if i == |amt| {
      assert amt[..i] == amt;
    } else {
      var front, c := amt[..|amt| - 1], amt[|amt| - 1];
      assert amt == front + [c] && amt[..i] == front[..i];
      PaidMonotone(front, i, d);
      PaidOneMore(front, c, d);
    }
  }

  lemma LockedNonNegative(locked: Locks, d: Denom)
    ensures TotalLocked(locked, d) >= 0
  {
    forall a | a in locked ensures AmountOf(locked[a], d) >= 0 { AmountNonNegative(locked[a], d); }
    SumNonNegative(locked, LocksIn(d));
  }

  lemma CountsNonNegative(counts: SendLocks, locked: Locks)
    requires Counted(counts, locked)
    ensures forall d | d in counts :: counts[d] >= 0
  {
    forall d | d in counts ensures counts[d] >= 0 {
      assert LockCount(counts, d) == TotalLocked(locked, d);
      LockedNonNegative(locked, d);
    }
  }

  function Moved(count: int, amount: nat, lock: bool): int { if lock then count + amount else count - amount }

  class LockKeeper {
    const bank: Bank
    const format: TimeFormat
    ghost const width: nat
    const queue: KVStore<Addr>
    var locked: Locks
    var sendLock: SendLocks

    /** Nothing is locked at first. */
    constructor (bank: Bank, format: TimeFormat, tokens: set<Denom>, ghost width: nat)
      requires Sortable(format, width)
      ensures this.bank == bank && Valid() && locked == map[] && fresh(queue)
    {
      this.bank, this.format, this.width := bank, format, width;
      queue := new KVStore<Addr>();
      locked, sendLock := map[], map d | d in tokens :: 0;
      new;
      NoTimeInNothing();
    }

    ghost predicate Valid()
      reads this, bank, queue
    {
      && Sortable(format, width) && Queued(queue.data, locked, format) && Counted(sendLock, locked)
      && locked.Keys <= bank.ledger.known
    }

    method AddCoins(a: Addr, d: Denom, n: nat)
      modifies bank`ledger
      ensures Received(old(bank.ledger), bank.ledger, a, d, n)
    {
      ReceiveMoves(bank.ledger, a, d, n);
      bank.ledger := bank.ledger.(coins := Add(bank.ledger.coins, Acct(a, d), n));
    }

    method SubtractCoins(a: Addr, amt: seq<Coin>) returns (ok: bool)
      modifies bank`ledger
      ensures ok == Covers(old(bank.ledger), a, amt)
      ensures ok ==> TakenFrom(old(bank.ledger), bank.ledger, a, amt)
    {
      hide TakenFrom, Covers;
      ghost var before := bank.ledger;
      NothingTaken(before, a);
      for i := 0 to |amt|
        invariant TakenFrom(before, bank.ledger, a, amt[..i])
      {
        if Bal(bank.ledger.coins, Acct(a, amt[i].denom)) < amt[i].amount {
          TooMuch(before, bank.ledger, a, amt, i);
          return false;
        }
        TakeOneMore(before, bank.ledger, a, amt[..i], amt[i]);
        assert amt[..i + 1] == amt[..i] + [amt[i]];
        bank.ledger := bank.ledger.(coins := Sub(bank.ledger.coins, Acct(a, amt[i].denom), amt[i].amount));
      }
      assert amt[..|amt|] == amt;
      TakenIsCovered(before, bank.ledger, a, amt);
      ok := true;
    }

    method UpdateTokenSendLock(d: Denom, amount: nat, lock: bool) returns (ok: bool)
      modifies this`sendLock
      ensures ok == (d in old(sendLock) && Moved(old(sendLock)[d], amount, lock) >= 0)
      ensures sendLock == if ok then old(sendLock)[d := Moved(old(sendLock)[d], amount, lock)] else old(sendLock)
    {
      if d !in sendLock { return false; }
      var next := if lock then sendLock[d] + amount else sendLock[d] - amount;
      if next < 0 { return false; }
      sendLock := sendLock[d := next];
      ok := true;
    }

    /** The new locked coins of the receiver, each counted with its token. */
    method AppendLocks(cs: seq<LockedCoin>, amt: seq<Coin>, unlockTime: nat, from: Addr, supervisor: Addr, reward: nat,
                       isSupervised: bool)
      returns (ok: bool, all: seq<LockedCoin>)
      requires forall d | d in sendLock :: sendLock[d] >= 0
      modifies this`sendLock
      ensures ok == forall i | 0 <= i < |amt| :: amt[i].denom in old(sendLock)
      ensures ok ==> all == cs + LocksOf(amt, unlockTime, from, supervisor, reward, isSupervised)
      ensures ok ==> forall d :: LockCount(sendLock, d) == LockCount(old(sendLock), d) + PaidOf(amt, d)
    {
      all := cs;
      ghost var before := sendLock;
      for i := 0 to |amt|
        invariant all == cs + LocksOf(amt[..i], unlockTime, from, supervisor, reward, isSupervised)
        invariant forall d :: LockCount(sendLock, d) == LockCount(before, d) + PaidOf(amt[..i], d)
        invariant sendLock.Keys == before.Keys && forall d | d in sendLock :: sendLock[d] >= 0
        invariant forall j | 0 <= j < i :: amt[j].denom in before
      {
        all := all + [LockOf(amt[i], unlockTime, from, supervisor, reward, isSupervised)];
        ok := UpdateTokenSendLock(amt[i].denom, amt[i].amount, true);
        if !ok { return; }
        assert amt[..i + 1] == amt[..i] + [amt[i]];
        forall d ensures PaidOf(amt[..i + 1], d) == PaidOf(amt[..i], d) + CoinIn(d)(amt[i]) {
          SeqSumSnoc(amt[..i], amt[i], CoinIn(d));
        }
      }
      assert amt[..|amt|] == amt;
      ok := true;
    }

    method IsSendForbidden(amt: seq<Coin>, a: Addr) returns (yes: bool)
      ensures yes == exists i :: 0 <= i < |amt| && Forbids(bank.forbidden, amt[i].denom, a)
    {
      for i := 0 to |amt|
        invariant forall j | 0 <= j < i :: !Forbids(bank.forbidden, amt[j].denom, a)
      {
        if Forbids(bank.forbidden, amt[i].denom, a) { return true; }
      }
      yes := false;
    }

    method PayLockFee(from: Addr, unlockTime: nat, now: nat, params: LockParams) returns (ok: bool, fee: nat)
      modifies bank`ledger
      ensures ok == (LockFee(unlockTime, now, params) >= 0
                     && CanSend(old(bank.ledger), Nobody, from, CET, LockFee(unlockTime, now, params)))
      ensures ok ==> fee == LockFee(unlockTime, now, params) && FeePaid(old(bank.ledger), bank.ledger, from, fee)
    {
      var lockDuration := (unlockTime - now) * NANOSECONDS;
      if lockDuration > params.freeTime && params.feePerDay > 0 {
        var exceededDays := (lockDuration - params.freeTime - 1) / DAY + 1;
        if exceededDays > Decimals.MAX_INT64 / params.feePerDay { return false, 0; }
        fee := params.feePerDay * exceededDays;
        SendKeepsSupply(bank.ledger, Nobody, from, FEE_COLLECTOR, CET, fee);
        ok := bank.DeductFee(from, fee);
      } else {
        fee, ok := 0, true;
      }
    }

    /** Locks coins of the sender for the receiver until a time. On any error nothing changes. */
    method SendLockedCoins(from: Addr, to: Addr, supervisor: Addr, amt: seq<Coin>, unlockTime: nat, reward: nat,
                           isSupervised: bool, now: nat, params: LockParams)
      returns (ok: bool, ghost fee: nat)
      requires Valid() && unlockTime <= MAX_TIME
      modifies this`locked, this`sendLock, bank`ledger, queue
      ensures Valid() && SameWorth(old(bank.ledger), old(locked), bank.ledger, locked)
      ensures bank.ledger.frozen == old(bank.ledger).frozen && old(bank.ledger).known <= bank.ledger.known
      ensures !ok ==>
              bank.ledger == old(bank.ledger) && locked == old(locked) && sendLock == old(sendLock)
                  && queue.data == old(queue.data)
      ensures ok == CanLock(old(bank.ledger), old(sendLock), bank.forbidden, from, amt,
                            LockFee(unlockTime, now, params))
      ensures ok ==>
              locked == old(locked)[to := CoinsOf(old(locked), to)
                                    + LocksOf(amt, unlockTime, from, supervisor, reward, isSupervised)]
      ensures ok ==> fee == LockFee(unlockTime, now, params) && LockSent(old(bank.ledger), bank.ledger, from, amt, fee)
    {
      hide Queued, Counted, TakenFrom, FeePaid, LockSent, SameWorth, Sortable, LockFee, Covers;
      ghost var before := bank.ledger;
      SameWorthSelf(before, locked);
      ok, fee := false, 0;
      var forbidden := IsSendForbidden(amt, from);
      if forbidden { return; }
      var savedLedger, savedLocks := bank.ledger, sendLock;
      ok, fee := PayLockFee(from, unlockTime, now, params);
      if !ok {
        bank.ledger := savedLedger;
        return;
      }
      ghost var paid := bank.ledger;
      CoversAfterFee(before, paid, from, fee, amt);
      CountsNonNegative(sendLock, locked);
      ok := SubtractCoins(from, amt);
      if !ok {
        bank.ledger := savedLedger;
        return;
      }
      ghost var taken := bank.ledger;
      var ax := CoinsOf(locked, to);
      var all;
      ok, all := AppendLocks(ax, amt, unlockTime, from, supervisor, reward, isSupervised);
      if !ok {
        bank.ledger, sendLock := savedLedger, savedLocks;
        return;
      }
      bank.ledger := bank.ledger.(known := bank.ledger.known + {to});
      LockingEnds(before, paid, taken, bank.ledger, locked, savedLocks, sendLock, from, to, amt, fee, unlockTime,
                  supervisor, reward, isSupervised);
      ghost var data := queue.data;
      if amt != [] {
        queue.Set(QueueKey(format, unlockTime, to), to);
      }
      LockingQueues(data, queue.data, locked, format, width, from, to, amt, unlockTime, supervisor, reward,
                    isSupervised);
      locked := locked[to := all];
    }

    /** Releases one locked coin before its time: the first that is equal in every field. A
        supervisor takes the reward out of it. */
    method EarlierUnlockCoin(from: Addr, to: Addr, supervisor: Addr, amt: Coin, unlockTime: nat, reward: nat,
                             isReturned: bool) returns (ok: bool)
      requires Valid() && unlockTime <= MAX_TIME && 0 < amt.amount && reward <= amt.amount
      modifies this`locked, this`sendLock, bank`ledger, queue
      ensures Valid() && SameWorth(old(bank.ledger), old(locked), bank.ledger, locked)
      ensures bank.ledger.frozen == old(bank.ledger).frozen && bank.ledger.known == old(bank.ledger).known
      ensures ok == (LockedCoin(amt.denom, amt.amount, unlockTime, from, supervisor, reward) in CoinsOf(old(locked),
            to))
      ensures !ok ==>
              bank.ledger == old(bank.ledger) && locked == old(locked) && sendLock == old(sendLock)
                  && queue.data == old(queue.data)
      ensures ok ==> exists i :: IsFirst(CoinsOf(old(locked), to),
                                         LockedCoin(amt.denom, amt.amount, unlockTime, from, supervisor, reward), i)
                       && locked == old(locked)[to := Without(CoinsOf(old(locked), to), i)]
      ensures ok ==> Unlocked(old(bank.ledger), bank.ledger, if isReturned then from else to, supervisor, amt, reward)
    {
      hide Queued, Counted, SameWorth, Sortable, Unlocked, PaidOut;
      SameWorthSelf(bank.ledger, locked);
      if to !in bank.ledger.known {
        assert to !in locked;
        return false;
      }
      var cs := CoinsOf(locked, to);
      var coin := LockedCoin(amt.denom, amt.amount, unlockTime, from, supervisor, reward);
      var found, hasOther, coinIndex := FindLock(cs, coin);
      if !found { return false; }
      ghost var before, counts, data := bank.ledger, sendLock, queue.data;
      CountedCovers(counts, locked, to, coinIndex, amt.denom);
      ok := UpdateTokenSendLock(amt.denom, amt.amount, false);
      assert ok;
      var receiver := if isReturned then from else to;
      PayUnlock(receiver, supervisor, amt, reward);
      UnlockingEnds(before, bank.ledger, locked, counts, sendLock, to, coinIndex, receiver, supervisor, amt, reward);
      if !hasOther {
        queue.Delete(QueueKey(format, unlockTime, to));
      }
      UnlockingQueues(data, queue.data, locked, format, width, to, coinIndex, hasOther);
      locked := locked[to := cs[..coinIndex] + cs[coinIndex + 1..]];
    }

    method PayUnlock(receiver: Addr, supervisor: Addr, amt: Coin, reward: nat)
      requires reward <= amt.amount
      modifies bank`ledger
      ensures Unlocked(old(bank.ledger), bank.ledger, receiver, supervisor, amt, reward)
      ensures PaidOut(old(bank.ledger), bank.ledger, amt.denom, amt.amount)
    {
      if supervisor == "" {
        AddCoins(receiver, amt.denom, amt.amount);
      } else {
        AddCoins(receiver, amt.denom, amt.amount - reward);
        if reward > 0 {
          AddCoins(supervisor, amt.denom, reward);
        }
      }
    }

    /** Finds the coin, and whether another coin has the same time. */
    method FindLock(cs: seq<LockedCoin>, coin: LockedCoin) returns (found: bool, hasOther: bool, coinIndex: int)
      ensures found == (coin in cs)
      ensures found ==> 0 <= coinIndex < |cs| && IsFirst(cs, coin, coinIndex)
      ensures found ==> hasOther == exists j :: 0 <= j < |cs| && j != coinIndex && cs[j].unlockTime == coin.unlockTime
    {
      found, hasOther, coinIndex := false, false, -1;
      for i := 0 to |cs|
        invariant found <==> coin in cs[..i]
        invariant found ==> 0 <= coinIndex < i && IsFirst(cs, coin, coinIndex)
        invariant hasOther <==>
                  exists j :: 0 <= j < i && (found ==> j != coinIndex) && cs[j].unlockTime == coin.unlockTime
      {
        assert cs[..i + 1] == cs[..i] + [cs[i]];
        if coin.unlockTime == cs[i].unlockTime {
          if !found && coin == cs[i] {
            found := true;
            coinIndex := i;
          } else {
            hasOther := true;
          }
        }
      }
      assert cs[..|cs|] == cs;
    }

    /** Pays out what is due of one account's coins, each denomination at once. */
    method WithdrawUnlockedCoins(a: Addr, time: nat)
      requires a in locked && Counted(sendLock, locked)
      modifies this`locked, this`sendLock, bank`ledger
      ensures locked == old(locked)[a := Later(old(locked)[a], time)]
      ensures Released(old(bank.ledger), bank.ledger, a, old(locked)[a], time)
      ensures Counted(sendLock, locked)
    {
      hide Counted, Released, Received, SameUnlocked, ReleasedSoFar, UnlockedOf, Bal;
      ghost var before, counts := bank.ledger, sendLock;
      var cs := locked[a];
      var unlocked, stillLocked := SplitDue(cs, time);
      CountsCoverDue(counts, locked, a, time, unlocked);
      var left := unlocked.Keys;
      ghost var done: set<Denom> := {};
      NothingReleased(before, a, counts, unlocked);
      while left != {}
        invariant left + done == unlocked.Keys && left !! done && locked == old(locked)
        invariant ReleasedSoFar(before, bank.ledger, a, counts, sendLock, unlocked, done)
        decreases |left|
      {
        var d :| d in left;
        ghost var l, c := bank.ledger, sendLock;
        AddCoins(a, d, unlocked[d]);
        var _ := UpdateTokenSendLock(d, unlocked[d], false);
        ReleaseOneMore(before, l, bank.ledger, a, counts, c, sendLock, unlocked, done, d);
        left, done := left - {d}, done + {d};
      }
      assert done == unlocked.Keys;
      AllReleased(before, bank.ledger, a, counts, sendLock, unlocked, cs, time, locked);
      locked := locked[a := stillLocked];
    }

    /** The coins that are due, added up, and the coins that stay. */
    method SplitDue(cs: seq<LockedCoin>, time: nat) returns (unlocked: map<Denom, nat>, stillLocked: seq<LockedCoin>)
      ensures SameUnlocked(unlocked, cs, time) && stillLocked == Later(cs, time)
    {
      unlocked, stillLocked := map[], [];
      for i := 0 to |cs|
        invariant SameUnlocked(unlocked, cs[..i], time) && stillLocked == Later(cs[..i], time)
      {
        var c := cs[i];
        assert cs[..i + 1] == cs[..i] + [c];
        assert cs[..i + 1][..|cs[..i + 1]| - 1] == cs[..i];
        forall d ensures DueOf(cs[..i + 1], d, time) == DueOf(cs[..i], d, time) + DueIn(d, time)(c) {
          SeqSumSnoc(cs[..i], c, DueIn(d, time));
        }
        if c.unlockTime <= time {
          unlocked := unlocked[c.denom := UnlockedOf(unlocked, c.denom) + c.amount];
        } else {
          stillLocked := stillLocked + [c];
        }
      }
      assert cs[..|cs|] == cs;
    }

    /** At the end of a block every coin whose time has come is paid out to its owner, and no
        entry of such a time is left in the queue. */
    method EndBlocker(time: nat)
      requires Valid() && time <= MAX_TIME
      modifies this`locked, this`sendLock, bank`ledger, queue
      ensures Valid() && SameWorth(old(bank.ledger), old(locked), bank.ledger, locked)
      ensures bank.ledger.frozen == old(bank.ledger).frozen && bank.ledger.known == old(bank.ledger).known
      ensures forall a :: CoinsOf(locked, a) == Later(CoinsOf(old(locked), a), time)
      ensures forall a, t | t <= time :: !HasTime(CoinsOf(locked, a), t)
      ensures forall k ::
              Bal(bank.ledger.coins, k) == Bal(old(bank.ledger).coins, k) + DueOf(CoinsOf(old(locked), k.addr), k.denom,
                    time)
    {
      hide Queued, Counted, SameWorth, Sortable, HasTime, PaidUp, Released, Paying, InRange;
      ghost var before, locked0, data := bank.ledger, locked, queue.data;
      var keys := queue.Iterator(Prefix(), PrefixEnd(TimePrefix(format, time)));
      DueScan(data, locked, format, width, time, keys);
      NothingPaid(before, locked, time);
      ghost var paid: set<Addr> := {};
      for i := 0 to |keys|
        invariant queue.data == data - (set k | k in keys[..i])
        invariant paid == set j | 0 <= j < i :: data[keys[j]]
        invariant Counted(sendLock, locked) && Paying(before, bank.ledger, locked0, locked, paid, time)
      {
        assert keys[i] !in keys[..i];
        assert keys[..i + 1] == keys[..i] + [keys[i]];
        var addr := queue.data[keys[i]];
        ghost var l, now := bank.ledger, locked;
        PayingKeepsAccounts(before, l, locked0, now, paid, time);
        WithdrawUnlockedCoins(addr, time);
        PayOneMore(before, l, bank.ledger, locked0, now, locked, paid, addr, time);
        queue.Delete(keys[i]);
        paid := paid + {addr};
      }
      assert keys[..|keys|] == keys;
      AllPaid(before, bank.ledger, locked0, locked, paid, time);
      QueueAfterDue(data, locked0, format, width, time, keys, locked);
    }
  }

  ghost predicate IsFirst(cs: seq<LockedCoin>, coin: LockedCoin, i: int)
  {
    0 <= i < |cs| && cs[i] == coin && coin !in cs[..i]
  }

  function Without(cs: seq<LockedCoin>, i: int): seq<LockedCoin>
    requires 0 <= i < |cs|
  {
    cs[..i] + cs[i + 1..]
  }

  /** What an early unlock pays: all of the coin to the receiver, or the reward of it to the supervisor. */
  ghost predicate Unlocked(l: Ledger, m: Ledger, receiver: Addr, supervisor: Addr, amt: Coin, reward: nat)
  {
    forall k :: Bal(m.coins, k) == Bal(l.coins, k) + UnlockDelta(receiver, supervisor, amt, reward, k)
  }

  function UnlockDelta(receiver: Addr, supervisor: Addr, amt: Coin, reward: int, k: Acct): int
  {
    if supervisor == "" then If(k == Acct(receiver, amt.denom), amt.amount)
    else If(k == Acct(receiver, amt.denom), amt.amount - reward) + If(k == Acct(supervisor, amt.denom), reward)
  }

  /** Of an unlocked coin its supervisor gets exactly the reward and its receiver all the rest;
      without a supervisor the receiver gets everything. */
  lemma UnlockPays(l: Ledger, m: Ledger, receiver: Addr, supervisor: Addr, amt: Coin, reward: nat)
    requires Unlocked(l, m, receiver, supervisor, amt, reward)
    ensures var purse, fund := Acct(receiver, amt.denom), Acct(supervisor, amt.denom);
            && (supervisor == "" || supervisor == receiver ==>
                Bal(m.coins, purse) - Bal(l.coins, purse) == amt.amount)
            && (supervisor != "" && supervisor != receiver ==>
                && Bal(m.coins, fund) - Bal(l.coins, fund) == reward
                && Bal(m.coins, purse) - Bal(l.coins, purse) + reward == amt.amount)
            && (forall k | k != purse && (k != fund || supervisor == "") :: Bal(m.coins, k) == Bal(l.coins, k))
  {
  }

  // ------------------------------------------------------------ why locking keeps everything

  lemma SameWorthSelf(l: Ledger, locked: Locks)
    ensures SameWorth(l, locked, l, locked)
  {
  }

  /** A lock took the amounts and the fee from the sender's spendable coins. */
  ghost predicate LockSent(l: Ledger, m: Ledger, from: Addr, amt: seq<Coin>, fee: nat)
  {
    forall k :: Bal(m.coins, k) == Bal(l.coins, k) - (if k.addr == from then PaidOf(amt, k.denom) else 0)
                                   - If(k == Acct(from, CET), fee) + If(k == Acct(FEE_COLLECTOR, CET), fee)
  }

  lemma LockingEnds(before: Ledger, paid: Ledger, taken: Ledger, after: Ledger, locked: Locks, counts: SendLocks,
                    next: SendLocks, from: Addr, to: Addr, amt: seq<Coin>, fee: nat, unlockTime: nat, supervisor: Addr,
                    reward: nat, isSupervised: bool)
    requires FeePaid(before, paid, from, fee) && TakenFrom(paid, taken, from, amt)
             && after == taken.(known := taken.known + {to})
    requires Counted(counts, locked) && forall d :: LockCount(next, d) == LockCount(counts, d) + PaidOf(amt, d)
    ensures var locked' := locked[to := CoinsOf(locked, to)
                                  + LocksOf(amt, unlockTime, from, supervisor, reward, isSupervised)];
            Counted(next, locked') && SameWorth(before, locked, after, locked')
    ensures LockSent(before, after, from, amt, fee) && after.frozen == before.frozen && before.known <= after.known
  {
    var cs := CoinsOf(locked, to) + LocksOf(amt, unlockTime, from, supervisor, reward, isSupervised);
    forall d ensures TotalLocked(locked[to := cs], d) == TotalLocked(locked, d) + PaidOf(amt, d) {
      LockedUpdate(locked, to, cs, d);
      LocksAddUp(CoinsOf(locked, to), amt, unlockTime, from, supervisor, reward, isSupervised, d);
    }
  }

  lemma LockingQueues(data: map<Key, Addr>, after: map<Key, Addr>, locked: Locks, f: TimeFormat, width: nat, from: Addr,
                      to: Addr, amt: seq<Coin>, unlockTime: nat, supervisor: Addr, reward: nat, isSupervised: bool)
    requires Sortable(f, width) && Queued(data, locked, f) && unlockTime <= MAX_TIME
    requires after == if amt != [] then data[QueueKey(f, unlockTime, to) := to] else data
    ensures Queued(after,
                   locked[to := CoinsOf(locked, to) + LocksOf(amt, unlockTime, from, supervisor, reward, isSupervised)],
                   f)
  {
    hide QueueKey, HasTime, Queued, Sortable;
    var cs := CoinsOf(locked, to);
    var all := cs + LocksOf(amt, unlockTime, from, supervisor, reward, isSupervised);
    forall t ensures HasTime(all, t) <==> HasTime(cs, t) || (t == unlockTime && amt != []) {
      LocksBringTime(cs, amt, unlockTime, from, supervisor, reward, isSupervised, t);
    }
    if amt == [] { QueueMatches(data, locked, f, width, to, unlockTime); }
    QueueAfter(data, locked, f, width, to, all, unlockTime, after);
  }

  /** The queue has exactly the entry that the account's coins ask for. */
  lemma QueueMatches(data: map<Key, Addr>, locked: Locks, f: TimeFormat, width: nat, a: Addr, t: nat)
    requires Sortable(f, width) && Queued(data, locked, f) && t <= MAX_TIME
    ensures QueueKey(f, t, a) in data <==> HasTime(CoinsOf(locked, a), t)
    ensures Adjusted(data, data, f, a, t, HasTime(CoinsOf(locked, a), t))
  {
    hide QueueKey, HasTime, Adjusted, Sortable;
    if HasTime(CoinsOf(locked, a), t) { assert IsQueued(data, f, t, a); }
    if QueueKey(f, t, a) in data { EntryTells(data, locked, f, width, a, t); }
    AlreadyAdjusted(data, f, a, t, HasTime(CoinsOf(locked, a), t));
  }

  lemma EntryTells(data: map<Key, Addr>, locked: Locks, f: TimeFormat, width: nat, a: Addr, t: nat)
    requires Sortable(f, width) && t <= MAX_TIME && QueueKey(f, t, a) in data
             && IsEntry(data, locked, f, QueueKey(f, t, a))
    ensures HasTime(CoinsOf(locked, a), t)
  {
    hide QueueKey, HasTime, Sortable;
    var k := QueueKey(f, t, a);
    var u: nat :| u <= MAX_TIME && k == QueueKey(f, u, data[k]) && HasTime(CoinsOf(locked, data[k]), u);
    QueueKeyInjective(f, width, t, a, u, data[k]);
  }

  lemma AlreadyAdjusted(data: map<Key, Addr>, f: TimeFormat, a: Addr, t: nat, has: bool)
    requires if has then IsQueued(data, f, t, a) else QueueKey(f, t, a) !in data
    ensures Adjusted(data, data, f, a, t, has)
  {
    hide QueueKey;
  }

  // ------------------------------------------------------------ why unlocking keeps everything

  lemma {:induction false} AmountNonNegative(cs: seq<LockedCoin>, d: Denom)
    ensures AmountOf(cs, d) >= 0
  {
    if cs != [] { AmountNonNegative(cs[..|cs| - 1], d); }
  }

  /** The token's count covers each locked coin. */
  lemma CountedCovers(counts: SendLocks, locked: Locks, a: Addr, i: nat, d: Denom)
    requires Counted(counts, locked) && i < |CoinsOf(locked, a)| && CoinsOf(locked, a)[i].denom == d
             && CoinsOf(locked, a)[i].amount > 0
    ensures d in counts && counts[d] >= CoinsOf(locked, a)[i].amount
  {
    forall b | b in locked ensures AmountOf(locked[b], d) >= 0 { AmountNonNegative(locked[b], d); }
    SumAtLeast(locked, LocksIn(d), a);
    SeqSumRemove(locked[a], LockIn(d), i);
    AmountNonNegative(Without(locked[a], i), d);
    assert LockCount(counts, d) == TotalLocked(locked, d);
  }

  /** The payments of an early unlock, with what they keep. */
  ghost predicate PaidOut(l: Ledger, m: Ledger, d: Denom, n: nat)
  {
    m.frozen == l.frozen && m.known == l.known && forall e :: Supply(m, e) == Supply(l, e) + If(e == d, n)
  }

  lemma UnlockingEnds(before: Ledger, after: Ledger, locked: Locks, counts: SendLocks, next: SendLocks, a: Addr, i: nat,
                      receiver: Addr, supervisor: Addr, amt: Coin, reward: nat)
    requires PaidOut(before, after, amt.denom, amt.amount) && Counted(counts, locked)
    requires i < |CoinsOf(locked, a)| && CoinsOf(locked, a)[i].denom == amt.denom
             && CoinsOf(locked, a)[i].amount == amt.amount
    requires amt.denom in counts && next == counts[amt.denom := counts[amt.denom] - amt.amount]
    ensures var locked' := locked[a := Without(CoinsOf(locked, a), i)];
            Counted(next, locked') && SameWorth(before, locked, after, locked')
  {
    var cs := CoinsOf(locked, a);
    forall d ensures TotalLocked(locked[a := Without(cs, i)], d) ==
        TotalLocked(locked, d) - If(d == amt.denom, amt.amount) {
      LockedUpdate(locked, a, Without(cs, i), d);
      SeqSumRemove(cs, LockIn(d), i);
    }
    forall d ensures LockCount(next, d) == TotalLocked(locked[a := Without(cs, i)], d) {
      assert LockCount(counts, d) == TotalLocked(locked, d);
    }
  }

  lemma UnlockingQueues(data: map<Key, Addr>, after: map<Key, Addr>, locked: Locks, f: TimeFormat, width: nat, a: Addr,
                        i: nat, hasOther: bool)
    requires Sortable(f, width) && Queued(data, locked, f) && i < |CoinsOf(locked, a)|
    requires var cs := CoinsOf(locked, a);
             hasOther == exists j :: 0 <= j < |cs| && j != i && cs[j].unlockTime == cs[i].unlockTime
    requires after == if hasOther then data else data - {QueueKey(f, CoinsOf(locked, a)[i].unlockTime, a)}
    ensures Queued(after, locked[a := Without(CoinsOf(locked, a), i)], f)
  {
    hide QueueKey, Queued, Sortable;
    var cs := CoinsOf(locked, a);
    var t, rest := cs[i].unlockTime, Without(cs, i);
    TimeIsBounded(data, locked, f, a, i);
    forall u ensures HasTime(rest, u) <==> exists j :: 0 <= j < |cs| && j != i && cs[j].unlockTime == u {
      RestTimes(cs, i, u);
    }
    forall u: nat | u != t ensures HasTime(rest, u) <==> HasTime(cs, u) {}
    if hasOther { QueueMatches(data, locked, f, width, a, t); }
    QueueAfter(data, locked, f, width, a, rest, t, after);
  }

  lemma TimeIsBounded(data: map<Key, Addr>, locked: Locks, f: TimeFormat, a: Addr, i: nat)
    requires Queued(data, locked, f) && i < |CoinsOf(locked, a)|
    ensures CoinsOf(locked, a)[i].unlockTime <= MAX_TIME
  {
    assert HasTime(CoinsOf(locked, a), CoinsOf(locked, a)[i].unlockTime);
  }

  lemma RestTimes(cs: seq<LockedCoin>, i: nat, u: int)
    requires i < |cs|
    ensures HasTime(Without(cs, i), u) <==> exists j :: 0 <= j < |cs| && j != i && cs[j].unlockTime == u
  {
    var rest := Without(cs, i);
    if HasTime(rest, u) {
      var j :| 0 <= j < |rest| && rest[j].unlockTime == u;
      assert rest[j] == cs[if j < i then j else j + 1];
    }
    if j :| 0 <= j < |cs| && j != i && cs[j].unlockTime == u {
      assert rest[if j < i then j else j - 1] == cs[j];
    }
  }

  // ------------------------------------------------------------ paying out

  function UnlockedOf(unlocked: map<Denom, nat>, d: Denom): nat { if d in unlocked then unlocked[d] else 0 }

  ghost predicate SameUnlocked(unlocked: map<Denom, nat>, cs: seq<LockedCoin>, time: int)
  {
    forall d :: UnlockedOf(unlocked, d) == DueOf(cs, d, time)
  }

  /** What is due of `cs` came into the account's spendable coins and nothing else moved. */
  ghost predicate Released(l: Ledger, m: Ledger, a: Addr, cs: seq<LockedCoin>, time: int)
  {
    && m.frozen == l.frozen && m.known == l.known
    && (forall k :: Bal(m.coins, k) == Bal(l.coins, k) + (if k.addr == a then DueOf(cs, k.denom, time) else 0))
    && (forall d :: Supply(m, d) == Supply(l, d) + DueOf(cs, d, time))
  }

  /** The denominations in `done` were paid to the account and taken off their tokens' counts. */
  ghost predicate ReleasedSoFar(l: Ledger, m: Ledger, a: Addr, counts: SendLocks, next: SendLocks,
                                unlocked: map<Denom, nat>, done: set<Denom>)
  {
    CoinsReleased(l, m, a, unlocked, done) && CountsReleased(counts, next, unlocked, done)
  }

  ghost predicate CoinsReleased(l: Ledger, m: Ledger, a: Addr, unlocked: map<Denom, nat>, done: set<Denom>)
  {
    && m.frozen == l.frozen && m.known == l.known
    && (forall k :: Bal(m.coins, k) == Bal(l.coins, k) + (if k.addr == a then OutOf(unlocked, done, k.denom) else 0))
    && (forall d :: Supply(m, d) == Supply(l, d) + OutOf(unlocked, done, d))
  }

  ghost predicate CountsReleased(counts: SendLocks, next: SendLocks, unlocked: map<Denom, nat>, done: set<Denom>)
  {
    forall d ::
        LockCount(next, d) == LockCount(counts, d) - OutOf(unlocked, done, d)
            && UnlockedOf(unlocked, d) <= LockCount(counts, d)
  }

  function OutOf(unlocked: map<Denom, nat>, done: set<Denom>, d: Denom): int
  {
    if d in done then UnlockedOf(unlocked, d) else 0
  }

  lemma {:induction false} DueWithin(cs: seq<LockedCoin>, d: Denom, time: int)
    ensures 0 <= DueOf(cs, d, time) <= AmountOf(cs, d)
  {
    if cs != [] { DueWithin(cs[..|cs| - 1], d, time); }
  }

  /** The tokens' counts cover what is due. */
  lemma CountsCoverDue(counts: SendLocks, locked: Locks, a: Addr, time: int, unlocked: map<Denom, nat>)
    requires Counted(counts, locked) && a in locked && SameUnlocked(unlocked, locked[a], time)
    ensures forall d :: UnlockedOf(unlocked, d) <= LockCount(counts, d)
  {
    forall d ensures UnlockedOf(unlocked, d) <= LockCount(counts, d) {
      forall b | b in locked ensures AmountOf(locked[b], d) >= 0 { AmountNonNegative(locked[b], d); }
      SumAtLeast(locked, LocksIn(d), a);
      DueWithin(locked[a], d, time);
    }
  }

  lemma NothingReleased(l: Ledger, a: Addr, counts: SendLocks, unlocked: map<Denom, nat>)
    requires forall d :: UnlockedOf(unlocked, d) <= LockCount(counts, d)
    ensures ReleasedSoFar(l, l, a, counts, counts, unlocked, {})
  {
  }

  lemma ReleaseOneMore(l: Ledger, m: Ledger, n: Ledger, a: Addr, counts: SendLocks, c: SendLocks, next: SendLocks,
                       unlocked: map<Denom, nat>, done: set<Denom>, d: Denom)
    requires ReleasedSoFar(l, m, a, counts, c, unlocked, done) && d in unlocked && d !in done
             && Received(m, n, a, d, unlocked[d])
    requires next == if d in c && c[d] - unlocked[d] >= 0 then c[d := c[d] - unlocked[d]] else c
    ensures ReleasedSoFar(l, n, a, counts, next, unlocked, done + {d})
  {
    hide CoinsReleased, CountsReleased, Received;
    CoinsOneMore(l, m, n, a, unlocked, done, d);
    CountsOneMore(counts, c, next, unlocked, done, d);
  }

  lemma OutOfOneMore(unlocked: map<Denom, nat>, done: set<Denom>, d: Denom, e: Denom)
    requires d in unlocked && d !in done
    ensures OutOf(unlocked, done + {d}, e) == OutOf(unlocked, done, e) + If(e == d, unlocked[d])
  {
  }

  lemma CoinsOneMore(l: Ledger, m: Ledger, n: Ledger, a: Addr, unlocked: map<Denom, nat>, done: set<Denom>, d: Denom)
    requires CoinsReleased(l, m, a, unlocked, done) && d in unlocked && d !in done && Received(m, n, a, d, unlocked[d])
    ensures CoinsReleased(l, n, a, unlocked, done + {d})
  {
    hide OutOf, Supply;
    forall e ensures Supply(n, e) == Supply(l, e) + OutOf(unlocked, done + {d}, e) {
      OutOfOneMore(unlocked, done, d, e);
    }
    forall k ensures Bal(n.coins, k) == Bal(l.coins, k) + (if k.addr == a then OutOf(unlocked, done + {d}, k.denom)
                                                           else 0) {
      OutOfOneMore(unlocked, done, d, k.denom);
    }
  }

  lemma CountsOneMore(counts: SendLocks, c: SendLocks, next: SendLocks, unlocked: map<Denom, nat>, done: set<Denom>,
                      d: Denom)
    requires CountsReleased(counts, c, unlocked, done) && d in unlocked && d !in done
    requires next == if d in c && c[d] - unlocked[d] >= 0 then c[d := c[d] - unlocked[d]] else c
    ensures CountsReleased(counts, next, unlocked, done + {d})
  {
    OutOfOneMore(unlocked, done, d, d);
    assert LockCount(c, d) == LockCount(counts, d) >= UnlockedOf(unlocked, d) == unlocked[d];
    forall e ensures LockCount(next, e) == LockCount(counts, e) - OutOf(unlocked, done + {d}, e)
        && UnlockedOf(unlocked, e) <= LockCount(counts, e) {
      OutOfOneMore(unlocked, done, d, e);
      assert LockCount(c, e) == LockCount(counts, e) - OutOf(unlocked, done, e);
    }
  }

  lemma AllReleased(l: Ledger, m: Ledger, a: Addr, counts: SendLocks, next: SendLocks, unlocked: map<Denom, nat>,
                    cs: seq<LockedCoin>, time: int, locked: Locks)
    requires ReleasedSoFar(l, m, a, counts, next, unlocked, unlocked.Keys) && SameUnlocked(unlocked, cs, time)
    requires a in locked && locked[a] == cs && Counted(counts, locked)
    ensures Released(l, m, a, cs, time) && Counted(next, locked[a := Later(cs, time)])
  {
    forall d ensures LockCount(next, d) == TotalLocked(locked[a := Later(cs, time)], d) {
      assert UnlockedOf(unlocked, d) == DueOf(cs, d, time);
      LockedUpdate(locked, a, Later(cs, time), d);
      DueAndLater(cs, d, time);
    }
    forall k ensures Bal(m.coins, k) == Bal(l.coins, k) + (if k.addr == a then DueOf(cs, k.denom, time) else 0) {
      assert UnlockedOf(unlocked, k.denom) == DueOf(cs, k.denom, time);
    }
    forall d ensures Supply(m, d) == Supply(l, d) + DueOf(cs, d, time) {
      assert UnlockedOf(unlocked, d) == DueOf(cs, d, time);
    }
  }

  /** The accounts in `paid` have got what was due to them; the others are as before. */
  ghost predicate Paying(l: Ledger, m: Ledger, before: Locks, now: Locks, paid: set<Addr>, time: int)
  {
    && m.frozen == l.frozen && m.known == l.known
    && PaidUp(before, now, paid, time) && SameWorth(l, before, m, now)
    && forall k ::
         Bal(m.coins, k) == Bal(l.coins, k) + (if k.addr in paid then DueOf(CoinsOf(before, k.addr), k.denom, time)
                                               else 0)
  }

  lemma NothingPaid(l: Ledger, locked: Locks, time: int)
    ensures Paying(l, l, locked, locked, {}, time)
  {
  }

  lemma PayingKeepsAccounts(l: Ledger, m: Ledger, before: Locks, now: Locks, paid: set<Addr>, time: int)
    requires Paying(l, m, before, now, paid, time)
    ensures now.Keys == before.Keys && m.known == l.known
  {
  }

  lemma WorthAfterRelease(l: Ledger, m: Ledger, locked: Locks, a: Addr, time: int)
    requires a in locked && Released(l, m, a, locked[a], time)
    ensures SameWorth(l, locked, m, locked[a := Later(locked[a], time)])
  {
    forall d ensures Worth(m, locked[a := Later(locked[a], time)], d) == Worth(l, locked, d) {
      LockedUpdate(locked, a, Later(locked[a], time), d);
      DueAndLater(locked[a], d, time);
    }
  }

  lemma PayOneMore(l: Ledger, m: Ledger, n: Ledger, before: Locks, now: Locks, next: Locks, paid: set<Addr>, a: Addr,
                   time: int)
    requires Paying(l, m, before, now, paid, time) && a in now
    requires next == now[a := Later(now[a], time)] && Released(m, n, a, now[a], time)
    ensures Paying(l, n, before, next, paid + {a}, time)
  {
    hide Worth;
    WorthAfterRelease(m, n, now, a, time);
    LaterTwice(before[a], time, "");
    forall k ensures Bal(n.coins, k) ==
        Bal(l.coins, k) + (if k.addr in paid + {a} then DueOf(CoinsOf(before, k.addr), k.denom, time) else 0) {
      if k.addr == a && a in paid { LaterTwice(before[a], time, k.denom); }
    }
  }

  lemma AllPaid(l: Ledger, m: Ledger, before: Locks, now: Locks, paid: set<Addr>, time: int)
    requires Paying(l, m, before, now, paid, time)
    requires forall a, t | t <= time && HasTime(CoinsOf(before, a), t) :: a in paid
    ensures now.Keys == before.Keys && forall a | a in before :: now[a] == Later(before[a], time)
    ensures forall a :: CoinsOf(now, a) == Later(CoinsOf(before, a), time)
    ensures forall a, t | t <= time :: !HasTime(CoinsOf(now, a), t)
    ensures forall k :: Bal(m.coins, k) == Bal(l.coins, k) + DueOf(CoinsOf(before, k.addr), k.denom, time)
    ensures m.frozen == l.frozen && m.known == l.known && SameWorth(l, before, m, now)
  {
    hide HasTime, SameWorth;
    forall a ensures CoinsOf(now, a) == Later(CoinsOf(before, a), time) {
      if a !in paid { NothingDue(CoinsOf(before, a), time, ""); }
    }
    assert forall a | a in before :: now[a] == CoinsOf(now, a);
    forall a, t | t <= time ensures !HasTime(CoinsOf(now, a), t) { LaterTimes(CoinsOf(before, a), time, t); }
    forall k ensures Bal(m.coins, k) == Bal(l.coins, k) + DueOf(CoinsOf(before, k.addr), k.denom, time) {
      if k.addr !in paid { NothingDue(CoinsOf(before, k.addr), time, k.denom); }
    }
  }

  lemma NothingTaken(l: Ledger, a: Addr)
    ensures TakenFrom(l, l, a, [])
  {
  }
}