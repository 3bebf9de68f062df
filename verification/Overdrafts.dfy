/** Interleaved payments: exactly when balances stay non-negative, and how overlapping pays overdraw. */
module Overdrafts {
  import opened Prelude
  import opened Decimal
  import opened Keyspace
  import opened Histories
  import opened Money
  import opened Payments

  // ---------- any interleaving ----------

  /** The next INCRBY of this pay leaves its account neither negative nor too large. */
  predicate Covered(s: Store, p: Pay) {
    match p.stage
    case Debit(sum) => 0 <= Balance(s, Account(p.payer)) - sum <= INT64_MAX
    case Credit(sum) => 0 <= Balance(s, Account(p.payee)) + sum <= INT64_MAX
    case _ => true
  }

  ghost predicate CoveredThroughout(b: Bank, turns: seq<Turn>)
    requires Schedules(turns, |b.pays|)
    decreases |turns|
  {
    turns == [] ||
    (Covered(b.store, b.pays[turns[0].pay]) && CoveredThroughout(TakeTurn(b, turns[0].pay, turns[0].now), turns[1..]))
  }

  ghost predicate NonNegativeThroughout(b: Bank, accounts: seq<string>, turns: seq<Turn>)
    requires Schedules(turns, |b.pays|)
    decreases |turns|
  {
    NonNegative(b.store, accounts) &&
    (turns == [] || NonNegativeThroughout(TakeTurn(b, turns[0].pay, turns[0].now), accounts, turns[1..]))
  }

  /** One command on one account, seen from all of them. */
  lemma {:induction false} CommandKeepsNonNegative(s: Store, e: Event, accounts: seq<string>)
    requires LastingAccounts(s, accounts) && NonNegative(s, accounts) && e.key in accounts
    requires (e.op.Get? || e.op.IncrBy?) && (e.op.IncrBy? ==> InInt64(e.op.increment))
    ensures NonNegative(Apply(s, e).0, accounts) <==> Wrap64(Balance(s, e.key) + Delta(e.op)) >= 0
  {
    hide Apply, CellAt, Wrap64, Count, Permanent, Delta;
    CommandOnAccount(s, e, e.key);
    forall a | a in accounts && a != e.key
      ensures Balance(Apply(s, e).0, a) == Balance(s, a)
    {
      CommandOnAccount(s, e, a);
    }
  }

  lemma {:induction false} AdvanceKeepsNonNegative(s: Store, now: int, p: Pay, accounts: seq<string>)
    requires LastingAccounts(s, accounts) && NonNegative(s, accounts) && SumsInRange(p)
    requires Account(p.payer) in accounts && Account(p.payee) in accounts
    ensures NonNegative(Advance(s, now, p).0, accounts) <==> Covered(s, p)
  {
    hide LastingAccounts, NonNegative, Apply, Account, Balance, Wrap64;
    match p.stage
    case ReadSender => ReadingKeepsNonNegative(s, now, Account(p.payer), accounts);
    case ReadPayee(_) => ReadingKeepsNonNegative(s, now, Account(p.payee), accounts);
    case Debit(sum) => AddingKeepsNonNegative(s, now, Account(p.payer), -sum, accounts);
    case Credit(sum) => AddingKeepsNonNegative(s, now, Account(p.payee), sum, accounts);
    case _ =>
  }

  lemma {:induction false} ReadingKeepsNonNegative(s: Store, now: int, account: string, accounts: seq<string>)
    requires LastingAccounts(s, accounts) && NonNegative(s, accounts) && account in accounts
    ensures NonNegative(GetBalance(s, now, account).0, accounts)
  {
    hide Apply, Balance, LastingAccounts;
    CommandKeepsNonNegative(s, Event(now, account, Op.Get), accounts);
    BalanceInRange(s, account);
  }

  lemma {:induction false} AddingKeepsNonNegative(s: Store, now: int, account: string, n: int, accounts: seq<string>)
    requires LastingAccounts(s, accounts) && NonNegative(s, accounts) && account in accounts
    requires INT64_MIN <= n <= INT64_MAX + 1
    ensures NonNegative(AddToBalance(s, now, account, Wrap64(n)), accounts)
       <==> 0 <= Balance(s, account) + n <= INT64_MAX
  {
    hide Apply, Balance, Wrap64, LastingAccounts;
    assert Balance(s, account) >= 0;
    hide NonNegative;
    CommandKeepsNonNegative(s, Event(now, account, Op.IncrBy(Wrap64(n))), accounts);
    BalanceInRange(s, account);
    WrapWraps(n, Balance(s, account));
    WrapStaysPositive(Balance(s, account) + n);
  }

  /** Under every interleaving, balances are non-negative throughout if and only if every debit finds
      its sum still there and no credit takes more than the payee has: the check made before the debit
      is not what counts. */
  lemma {:induction false} InterleavedPaysKeepNonNegative(b: Bank, accounts: seq<string>, turns: seq<Turn>)
    requires Sound(b, accounts) && NonNegative(b.store, accounts) && Schedules(turns, |b.pays|)
    ensures NonNegativeThroughout(b, accounts, turns) <==> CoveredThroughout(b, turns)
    decreases |turns|
  {
    if turns == [] {
    } else {
      var i, now := turns[0].pay, turns[0].now;
      TurnKeepsNonNegative(b, accounts, i, now);
      StepConserves(b, accounts, i, now);
      hide Sound, TakeTurn, Covered, NonNegative, Total, Fits;
      if Covered(b.store, b.pays[i]) {
        InterleavedPaysKeepNonNegative(TakeTurn(b, i, now), accounts, turns[1..]);
      } else {
        NegativeStart(TakeTurn(b, i, now), accounts, turns[1..]);
      }
    }
  }

  lemma {:induction false} TurnKeepsNonNegative(b: Bank, accounts: seq<string>, i: nat, now: int)
    requires Sound(b, accounts) && NonNegative(b.store, accounts) && i < |b.pays|
    ensures NonNegative(TakeTurn(b, i, now).store, accounts) <==> Covered(b.store, b.pays[i])
  {
    AdvanceKeepsNonNegative(b.store, now, b.pays[i], accounts);
    hide Advance, Covered, NonNegative, LastingAccounts;
  }

  lemma NegativeStart(b: Bank, accounts: seq<string>, turns: seq<Turn>)
    requires Schedules(turns, |b.pays|) && !NonNegative(b.store, accounts)
    ensures !NonNegativeThroughout(b, accounts, turns)
  {
  }

  // ---------- overlapping pays ----------

  /** Two players' accounts, the first holding `n`. */
  function FundedStore(player: string, n: int): Store {
    EMPTY_STORE.(strings := map[Account(player) := Entry(ToString(n), None)])
  }

  function TwoPays(payer: string, payee: string, amount: string): seq<Pay> {
    [Pay(payer, payee, amount, ReadSender), Pay(payer, payee, amount, ReadSender)]
  }

  /** `count` rounds in which both pays run one command each. */
  function Rounds(count: nat, now: int): (turns: seq<Turn>)
    ensures Schedules(turns, 2)
  {
    if count == 0 then [] else [Turn(0, now), Turn(1, now)] + Rounds(count - 1, now)
  }

  /** The payer's account reads as `n`, both accounts are lasting and the payee's reads as 0. */
  predicate Funded(s: Store, payer: string, payee: string, n: int) {
    && Permanent(CellAt(s, Account(payer)).str) && Permanent(CellAt(s, Account(payee)).str)
    && Funds(s, Account(payer)) == Some(n) && Funds(s, Account(payee)) == Some(0)
  }

  function StageAfter(stage: Stage, n: int): Stage {
    match stage
    case ReadSender => ReadPayee(n)
    case ReadPayee(_) => Decide(n)
    case _ => Debit(n)
  }

  /** The commands before the debit leave the funds alone. */
  lemma {:induction false} CheckingTurn(s: Store, now: int, p: Pay, n: int)
    requires InInt64(n) && p.amount == ToString(n) && Funded(s, p.payer, p.payee, n)
    requires p.stage == ReadSender || p.stage == ReadPayee(n) || p.stage == Decide(n)
    ensures Advance(s, now, p).1 == p.(stage := StageAfter(p.stage, n))
    ensures Funded(Advance(s, now, p).0, p.payer, p.payee, n)
  {
    NumberRoundTrip(n);
    hide ReadBalance, ParseLong, ToString, Apply, Account;
    var from, to := Account(p.payer), Account(p.payee);
    ReadingIsHarmless(s, now, from, from);
    ReadingIsHarmless(s, now, from, to);
    ReadingIsHarmless(s, now, to, from);
    ReadingIsHarmless(s, now, to, to);
  }

  /** Both pays in the same stage on the same accounts. */
  predicate InStep(b: Bank, payer: string, payee: string, n: int, stage: Stage) {
    && Funded(b.store, payer, payee, n)
    && b.pays == [Pay(payer, payee, ToString(n), stage), Pay(payer, payee, ToString(n), stage)]
  }

  lemma {:induction false} CheckingRound(b: Bank, payer: string, payee: string, n: int, stage: Stage, now: int)
    requires InInt64(n) && InStep(b, payer, payee, n, stage)
    requires stage == ReadSender || stage == ReadPayee(n) || stage == Decide(n)
    ensures InStep(Round(b, now), payer, payee, n, StageAfter(stage, n))
  {
    hide Funded, Advance, ToString;
    CheckingTurn(b.store, now, b.pays[0], n);
    CheckingTurn(TakeTurn(b, 0, now).store, now, b.pays[1], n);
  }

  lemma {:induction false} PlayRound(b: Bank, count: nat, now: int)
    requires |b.pays| == 2 && count > 0
    ensures Play(b, Rounds(count, now)) == Play(Round(b, now), Rounds(count - 1, now))
  {
    hide TakeTurn;
    var turns, rest := Rounds(count, now), Rounds(count - 1, now);
    assert turns[1..] == [Turn(1, now)] + rest;
    assert turns[1..][1..] == rest;
    assert Play(b, turns) == Play(TakeTurn(b, 0, now), turns[1..]);
    assert Play(TakeTurn(b, 0, now), turns[1..]) == Play(TakeTurn(TakeTurn(b, 0, now), 1, now), turns[1..][1..]);
  }

  lemma {:induction false} BothDebit(b: Bank, payer: string, payee: string, n: int, now: int)
    requires InStep(b, payer, payee, n, Debit(n)) && InInt64(n) && 0 < n && Account(payer) != Account(payee)
    ensures Balance(Round(b, now).store, Account(payer)) == -n
  {
    var from := Account(payer);
    var e := Event(now, from, Op.IncrBy(-n));
    assert Wrap64(-n) == -n;
    assert Permanent(CellAt(b.store, from).str);
    FundsAreBalance(b.store, from);
    DebitTurn(b, 0, now, n);
    DebitTurn(TakeTurn(b, 0, now), 1, now, n);
    hide Apply, Funds, Balance, CellAt, Permanent, ToString, TakeTurn, Account;
    CommandOnAccount(b.store, e, from);
    CommandOnAccount(Apply(b.store, e).0, e, from);
  }

  lemma {:induction false} DebitTurn(b: Bank, i: nat, now: int, n: int)
    requires i < |b.pays| && b.pays[i].stage == Debit(n) && Wrap64(-n) == -n
    ensures TakeTurn(b, i, now).store == Apply(b.store, Event(now, Account(b.pays[i].payer), Op.IncrBy(-n))).0
    ensures TakeTurn(b, i, now).pays == b.pays[i := b.pays[i].(stage := Credit(n))]
  {
    hide Apply;
  }

  lemma {:induction false} FundedStoreIsFunded(payer: string, payee: string, n: int)
    requires InInt64(n) && 0 < n && Account(payer) != Account(payee)
    ensures Funded(FundedStore(payer, n), payer, payee, n)
  {
    NumberRoundTrip(n);
    NilIsNoNumber();
    hide Account, Stoll, ParseLong, ToString;
    var s := FundedStore(payer, n);
    assert CellAt(s, Account(payee)).str == None;
    assert CellAt(s, Account(payer)).str == Some(Entry(ToString(n), None));
  }

  function Round(b: Bank, now: int): (r: Bank)
    requires |b.pays| == 2
    ensures |r.pays| == 2
  {
    TakeTurn(TakeTurn(b, 0, now), 1, now)
  }

  /** After three rounds both pays have passed their checks and are about to debit. */
  lemma {:induction false} BothPassTheCheck(b: Bank, payer: string, payee: string, n: int, now: int)
    requires InInt64(n) && InStep(b, payer, payee, n, ReadSender)
    ensures InStep(Round(Round(Round(b, now), now), now), payer, payee, n, Debit(n))
  {
    hide InStep, TakeTurn;
    CheckingRound(b, payer, payee, n, ReadSender, now);
    CheckingRound(Round(b, now), payer, payee, n, ReadPayee(n), now);
    CheckingRound(Round(Round(b, now), now), payer, payee, n, Decide(n), now);
  }

  /** Without serialisation the balance check protects nothing: whatever a player owns, two overlapping
      pays of all of it both pass the check and leave the player overdrawn by as much. */
  lemma {:induction false} OverlappingPaysOverdraw(payer: string, payee: string, n: int, now: int)
    requires 0 < n && InInt64(n) && payer != payee
    ensures Balance(Play(Bank(FundedStore(payer, n), TwoPays(payer, payee, ToString(n))), Rounds(4, now)).store,
                    Account(payer)) == -n
  {
    AccountsAreDistinct(payer, payee);
    var b0 := Bank(FundedStore(payer, n), TwoPays(payer, payee, ToString(n)));
    FundedStoreIsFunded(payer, payee, n);
    StartInStep(b0, payer, payee, n);
    hide InStep, TakeTurn, Play, Rounds, Account, Balance;
    var b3 := Round(Round(Round(b0, now), now), now);
    PlayRound(b0, 4, now);
    PlayRound(Round(b0, now), 3, now);
    PlayRound(Round(Round(b0, now), now), 2, now);
    PlayRound(b3, 1, now);
    BothPassTheCheck(b0, payer, payee, n, now);
    BothDebit(b3, payer, payee, n, now);
    NothingPlayed(Round(b3, now), now);
  }

  lemma StartInStep(b: Bank, payer: string, payee: string, n: int)
    requires Funded(b.store, payer, payee, n) && b.pays == TwoPays(payer, payee, ToString(n))
    ensures InStep(b, payer, payee, n, ReadSender)
  {
  }

  lemma NothingPlayed(b: Bank, now: int)
    requires |b.pays| == 2
    ensures Play(b, Rounds(0, now)) == b
  {
  }

  // ---------- the overdraft, from the condition ----------

  lemma {:induction false} RoundIsCovered(b: Bank, count: nat, now: int)
    requires |b.pays| == 2 && count > 0 && CoveredThroughout(b, Rounds(count, now))
    ensures Covered(b.store, b.pays[0]) && Covered(TakeTurn(b, 0, now).store, TakeTurn(b, 0, now).pays[1])
    ensures CoveredThroughout(Round(b, now), Rounds(count - 1, now))
  {
    hide TakeTurn, Covered;
    var turns, rest := Rounds(count, now), Rounds(count - 1, now);
    assert turns[1..] == [Turn(1, now)] + rest && turns[1..][1..] == rest;
    assert CoveredThroughout(TakeTurn(b, 0, now), turns[1..]);
  }

  lemma {:induction false} SecondDebitIsNotCovered(b: Bank, payer: string, payee: string, n: int, now: int)
    requires InStep(b, payer, payee, n, Debit(n)) && InInt64(n) && 0 < n
    ensures !Covered(TakeTurn(b, 0, now).store, TakeTurn(b, 0, now).pays[1])
  {
    var from := Account(payer);
    assert Wrap64(-n) == -n;
    assert Permanent(CellAt(b.store, from).str);
    FundsAreBalance(b.store, from);
    DebitTurn(b, 0, now, n);
    hide Apply, Funds, Balance, CellAt, Permanent, ToString, TakeTurn, Account;
    CommandOnAccount(b.store, Event(now, from, Op.IncrBy(-n)), from);
  }

  /** So the condition fails on overlapping pays, and some balance is negative on the way. */
  lemma {:induction false} OverlappingPaysAreNotCovered(payer: string, payee: string, n: int, now: int)
    requires 0 < n && InInt64(n) && payer != payee
    ensures var b := Bank(FundedStore(payer, n), TwoPays(payer, payee, ToString(n)));
      && !CoveredThroughout(b, Rounds(4, now))
      && !NonNegativeThroughout(b, [Account(payer), Account(payee)], Rounds(4, now))
  {
    hide InStep, TakeTurn, Covered, CoveredThroughout, NonNegativeThroughout, Rounds, Sound, NonNegative, Account;
    hide FundedStore, Funded, ToString;
    AccountsAreDistinct(payer, payee);
    var b0 := Bank(FundedStore(payer, n), TwoPays(payer, payee, ToString(n)));
    FundedStoreIsFunded(payer, payee, n);
    StartInStep(b0, payer, payee, n);
    FundedBankIsSound(payer, payee, n);
    BothPassTheCheck(b0, payer, payee, n, now);
    var b3 := Round(Round(Round(b0, now), now), now);
    if CoveredThroughout(b0, Rounds(4, now)) {
      RoundIsCovered(b0, 4, now);
      RoundIsCovered(Round(b0, now), 3, now);
      RoundIsCovered(Round(Round(b0, now), now), 2, now);
      RoundIsCovered(b3, 1, now);
      SecondDebitIsNotCovered(b3, payer, payee, n, now);
    }
    InterleavedPaysKeepNonNegative(b0, [Account(payer), Account(payee)], Rounds(4, now));
  }

  lemma {:induction false} FundedBankIsSound(payer: string, payee: string, n: int)
    requires 0 < n && InInt64(n) && Account(payer) != Account(payee)
    ensures Sound(Bank(FundedStore(payer, n), TwoPays(payer, payee, ToString(n))), [Account(payer), Account(payee)])
    ensures NonNegative(FundedStore(payer, n), [Account(payer), Account(payee)])
  {
    FundedStoreIsFunded(payer, payee, n);
    FundsAreBalance(FundedStore(payer, n), Account(payer));
    FundsAreBalance(FundedStore(payer, n), Account(payee));
    hide Funds, Account, FundedStore, CellAt, Balance;
  }
}
