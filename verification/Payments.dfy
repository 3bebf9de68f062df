/** Payments one at a time. */
module Payments {
  import opened Prelude
  import opened Decimal
  import opened Keyspace
  import opened Histories
  import opened Money
  import Wire

  /** What a client reads as the balance of a lasting account. */
  function Funds(s: Store, account: string): Option<int> {
    var c := CellAt(s, account);
    ReadBalance(Reply.Text(if c.str.Some? then Some(c.str.value.value) else None))
  }

  /** The sum `handlePayCommand` moves, if it moves any. */
  function Moved(s: Store, payer: string, amount: string): Option<int> {
    match (Funds(s, Account(payer)), ParseLong(amount))
    case (Some(funds), Some(sum)) => if funds < sum then None else Some(sum)
    case _ => None
  }

  /** The commands of one undisturbed `handlePayCommand`, at four clock readings. */
  function SequentialPay(s: Store, payer: string, payee: string, amount: string, t: seq<int>): (Store, Outcome)
    requires |t| == 4
  {
    var (s1, funds) := GetBalance(s, t[0], Account(payer));
    if funds == None then (s1, InvalidAmount)
    else
      var s2 := Apply(s1, Event(t[1], Account(payee), Op.Get)).0;
      var sum := ParseLong(amount);
      if sum == None then (s2, InvalidAmount)
      else if funds.value < sum.value then (s2, InsufficientFunds)
      else
        var s3 := AddToBalance(s2, t[2], Account(payer), Wrap64(-sum.value));
        (AddToBalance(s3, t[3], Account(payee), sum.value), Transferred)
  }

  lemma {:induction false} NilIsNoNumber()
    ensures Stoll(Wire.NIL_RESPONSE) == None
  {
    assert SkipSpace(Wire.NIL_RESPONSE) == Wire.NIL_RESPONSE;
    assert Unsigned(Wire.NIL_RESPONSE)[0] == '(';
  }

  /** What the client reads is what the server will count from, whenever the client can read it. */
  lemma {:induction false} FundsAreBalance(s: Store, account: string)
    requires Funds(s, account).Some?
    ensures Funds(s, account).value == Balance(s, account)
  {
    NilIsNoNumber();
    var c := CellAt(s, account);
    if c.str.Some? && c.str.value.value != Wire.NIL_RESPONSE {
      StrictParseIsPrefixParse(c.str.value.value);
    }
    hide Stoll, ParseLong;
  }

  /** A client can read a balance exactly if the account is missing or reads "(nil)", which is 0, or holds a
      64-bit number with nothing around it. */
  lemma {:induction false} FundsExactly(s: Store, account: string, n: int)
    ensures var text := TextOf(CellAt(s, account));
      Funds(s, account) == Some(n) <==>
        (if text == None || text == Some(Wire.NIL_RESPONSE) then n == 0 else InInt64(n) && IsNumber(text.value, n))
  {
    var text := TextOf(CellAt(s, account));
    if text.Some? {
      ParseLongExactly(text.value, n);
    }
    hide ParseLong, IsNumber, CellAt;
  }

  /** What a pay moves: a readable sum, no larger than the payer's readable balance. */
  lemma {:induction false} MovedExactly(s: Store, payer: string, amount: string, sum: int)
    ensures Moved(s, payer, amount) == Some(sum) <==>
      (&& InInt64(sum) && IsNumber(amount, sum)
       && Funds(s, Account(payer)).Some? && sum <= Balance(s, Account(payer)))
  {
    ParseLongExactly(amount, sum);
    if Funds(s, Account(payer)).Some? {
      FundsAreBalance(s, Account(payer));
    }
    hide ParseLong, IsNumber, Funds, Balance, Account;
  }

  /** Reading a lasting account changes no account. */
  lemma {:induction false} ReadingIsHarmless(s: Store, now: int, account: string, other: string)
    requires Permanent(CellAt(s, account).str) && Permanent(CellAt(s, other).str)
    ensures GetBalance(s, now, account).1 == Funds(s, account)
    ensures CellAt(Apply(s, Event(now, account, Op.Get)).0, other).str == CellAt(s, other).str
  {
    var c := CellAt(s, account);
    assert Purge(c, now).str == c.str;
    CellAfterPut(s, account, Purge(c, now), other);
    hide ReadBalance;
  }

  predicate NonNegative(s: Store, accounts: seq<string>) {
    forall a :: a in accounts ==> Balance(s, a) >= 0
  }

  /** What a pay of `sum` adds to account `a`: nothing on the whole when payer and payee coincide. */
  function Change(a: string, from: string, to: string, sum: int): int {
    (if a == to then sum else 0) - (if a == from then sum else 0)
  }

  /** The two INCRBYs of a pay, on any two accounts and for any sum. */
  lemma {:induction false} TransferBalances(s: Store, t: int, u: int, from: string, to: string, sum: int, a: string)
    requires Permanent(CellAt(s, from).str) && Permanent(CellAt(s, to).str) && Permanent(CellAt(s, a).str)
    requires InInt64(sum)
    ensures var after := AddToBalance(AddToBalance(s, t, from, Wrap64(-sum)), u, to, sum);
      && Permanent(CellAt(after, a).str)
      && Balance(after, a) == Wrap64(Balance(s, a) + Change(a, from, to, sum))
  {
    hide Apply, CellAt, Wrap64, Permanent, Count;
    var mid := AddToBalance(s, t, from, Wrap64(-sum));
    BalanceInRange(s, a);
    CommandOnAccount(s, Event(t, from, Op.IncrBy(Wrap64(-sum))), a);
    CommandOnAccount(s, Event(t, from, Op.IncrBy(Wrap64(-sum))), to);
    CommandOnAccount(mid, Event(u, to, Op.IncrBy(sum)), a);
    WrapWraps(-sum, Balance(s, from));
    WrapWraps(Balance(s, from) - sum, sum);
  }

  lemma BalanceInRange(s: Store, a: string)
    ensures InInt64(Balance(s, a))
  {
  }

  /** An undisturbed pay changes exactly the two accounts, by exactly the sum (modulo 2^64), or nothing. */
  lemma {:induction false} SequentialPayBalances(
      s: Store, payer: string, payee: string, amount: string, t: seq<int>, a: string)
    requires |t| == 4 && Permanent(CellAt(s, a).str)
    requires Permanent(CellAt(s, Account(payer)).str) && Permanent(CellAt(s, Account(payee)).str)
    ensures var (after, outcome) := SequentialPay(s, payer, payee, amount, t);
      var sum := if Moved(s, payer, amount).Some? then Moved(s, payer, amount).value else 0;
      && (outcome == Transferred <==> Moved(s, payer, amount).Some?)
      && Permanent(CellAt(after, a).str)
      && Balance(after, a) == Wrap64(Balance(s, a) + Change(a, Account(payer), Account(payee), sum))
  {
    hide Apply, CellAt, Balance, Funds, Account, ParseLong, Wrap64, Permanent, ReadBalance;
    var from, to := Account(payer), Account(payee);
    var s1 := GetBalance(s, t[0], from).0;
    var s2 := Apply(s1, Event(t[1], to, Op.Get)).0;
    BalanceInRange(s, a);
    ReadingIsHarmless(s, t[0], from, from);
    ReadingIsHarmless(s, t[0], from, to);
    ReadingIsHarmless(s, t[0], from, a);
    ReadingIsHarmless(s1, t[1], to, from);
    ReadingIsHarmless(s1, t[1], to, to);
    ReadingIsHarmless(s1, t[1], to, a);
    SameTextSameBalance(s, s1, a);
    SameTextSameBalance(s, s2, a);
    if Moved(s, payer, amount).Some? {
      TransferBalances(s2, t[2], t[3], from, to, Moved(s, payer, amount).value, a);
    }
  }

  /** The pay command between players: a payer who has the sum loses it, the payee gains it and no third
      player is touched; paying oneself, or more than one has, changes nobody's balance. */
  lemma {:induction false} PayBetweenPlayers(
      s: Store, payer: string, payee: string, third: string, amount: string, t: seq<int>)
    requires |t| == 4 && third != payer && third != payee
    requires LastingAccounts(s, [Account(payer), Account(payee), Account(third)])
    ensures var (after, outcome) := SequentialPay(s, payer, payee, amount, t);
      var sum := MovedSum(s, payer, amount);
      && (outcome == Transferred <==> Moved(s, payer, amount).Some?)
      && (payer != payee ==>
            && Balance(after, Account(payer)) == Wrap64(Balance(s, Account(payer)) - sum)
            && Balance(after, Account(payee)) == Wrap64(Balance(s, Account(payee)) + sum))
      && (payer == payee ==> Balance(after, Account(payer)) == Balance(s, Account(payer)))
      && Balance(after, Account(third)) == Balance(s, Account(third))
  {
    hide SequentialPay, Balance, CellAt, Account, Permanent, Moved, Wrap64;
    var accounts := [Account(payer), Account(payee), Account(third)];
    assert accounts[0] in accounts && accounts[1] in accounts && accounts[2] in accounts;
    SequentialPayBalances(s, payer, payee, amount, t, Account(payer));
    SequentialPayBalances(s, payer, payee, amount, t, Account(payee));
    SequentialPayBalances(s, payer, payee, amount, t, Account(third));
    BalanceInRange(s, Account(payer));
    BalanceInRange(s, Account(third));
    AccountsAreDistinct(payer, payee);
    AccountsAreDistinct(third, payer);
    AccountsAreDistinct(third, payee);
  }

  lemma SameTextSameBalance(s: Store, r: Store, a: string)
    requires CellAt(s, a).str == CellAt(r, a).str
    ensures Balance(s, a) == Balance(r, a)
  {
  }

  /** What a caller can check before a pay: between two accounts, the payee's new balance is neither
      negative nor too large, and a negative sum does not overfill the payer. */
  predicate SafePay(s: Store, payer: string, payee: string, amount: string) {
    var from, to := Account(payer), Account(payee);
    match Moved(s, payer, amount)
    case None => true
    case Some(sum) =>
      from == to || (Balance(s, from) - sum <= INT64_MAX && 0 <= Balance(s, to) + sum <= INT64_MAX)
  }

  /** The sum a pay moves, 0 if it moves none. */
  function MovedSum(s: Store, payer: string, amount: string): int {
    if Moved(s, payer, amount).Some? then Moved(s, payer, amount).value else 0
  }

  lemma {:induction false} PaidAccount(s: Store, payer: string, payee: string, amount: string, t: seq<int>, a: string)
    requires |t| == 4 && Permanent(CellAt(s, a).str) && Balance(s, a) >= 0
    requires Permanent(CellAt(s, Account(payer)).str) && Permanent(CellAt(s, Account(payee)).str)
    ensures var after := SequentialPay(s, payer, payee, amount, t).0;
      var due := Balance(s, a) + Change(a, Account(payer), Account(payee), MovedSum(s, payer, amount));
      && Permanent(CellAt(after, a).str)
      && (Balance(after, a) >= 0 <==> 0 <= due <= INT64_MAX)
      && (0 <= due <= INT64_MAX ==> Balance(after, a) == due)
  {
    hide SequentialPay, Balance, CellAt, Account, Permanent, Moved, Wrap64;
    SequentialPayBalances(s, payer, payee, amount, t, a);
    BalanceInRange(s, a);
    MovedInRange(s, payer, amount);
    WrapStaysPositive(Balance(s, a) + Change(a, Account(payer), Account(payee), MovedSum(s, payer, amount)));
  }

  /** The handler's own check: the payer has what is moved. */
  lemma {:induction false} MovedInRange(s: Store, payer: string, amount: string)
    ensures InInt64(MovedSum(s, payer, amount))
    ensures Moved(s, payer, amount).Some? ==> MovedSum(s, payer, amount) <= Balance(s, Account(payer))
  {
    if Moved(s, payer, amount).Some? {
      FundsAreBalance(s, Account(payer));
    }
    hide Funds, Balance, Account;
  }

  /** One pay keeps balances non-negative exactly when it is safe: the handler itself checks only that
      the payer has the sum. */
  lemma {:induction false} SequentialPayKeepsNonNegative(
      s: Store, payer: string, payee: string, amount: string, t: seq<int>, accounts: seq<string>)
    requires |t| == 4 && LastingAccounts(s, accounts) && NonNegative(s, accounts)
    requires Account(payer) in accounts && Account(payee) in accounts
    ensures LastingAccounts(SequentialPay(s, payer, payee, amount, t).0, accounts)
    ensures NonNegative(SequentialPay(s, payer, payee, amount, t).0, accounts) <==> SafePay(s, payer, payee, amount)
  {
    hide SequentialPay, Balance, CellAt, Account, Permanent, Moved;
    var after := SequentialPay(s, payer, payee, amount, t).0;
    var from, to, sum := Account(payer), Account(payee), MovedSum(s, payer, amount);
    MovedInRange(s, payer, amount);
    forall a | a in accounts
      ensures Permanent(CellAt(after, a).str)
      ensures Balance(after, a) >= 0 <==> 0 <= Balance(s, a) + Change(a, from, to, sum) <= INT64_MAX
    {
      PaidAccount(s, payer, payee, amount, t, a);
    }
    forall a | a in accounts ensures Balance(s, a) <= INT64_MAX {
      BalanceInRange(s, a);
    }
    assert Balance(after, from) >= 0 <==> 0 <= Balance(s, from) + Change(from, from, to, sum) <= INT64_MAX;
    assert Balance(after, to) >= 0 <==> 0 <= Balance(s, to) + Change(to, from, to, sum) <= INT64_MAX;
  }

  /** Wrapping a sum of two 64-bit numbers of which one is non-negative gives a non-negative result
      only when nothing wraps. */
  lemma {:induction false} WrapStaysPositive(n: int)
    requires INT64_MIN <= n < 0x1_0000_0000_0000_0000
    ensures Wrap64(n) >= 0 <==> 0 <= n <= INT64_MAX
  {
    if n > INT64_MAX {
      WrapUnique(n, n - TWO_TO_64, 1);
    }
  }

  // ---------- serialised pays ----------

  /** One call of the pay handler, with the clock readings of its four commands. */
  datatype Payment = Payment(payer: string, payee: string, amount: string, t: seq<int>)

  function PayOne(s: Store, p: Payment): Store
    requires |p.t| == 4
  {
    SequentialPay(s, p.payer, p.payee, p.amount, p.t).0
  }

  /** Every payment has its clock readings and is between listed accounts. */
  predicate Listed(payments: seq<Payment>, accounts: seq<string>) {
    forall i :: 0 <= i < |payments| ==>
      |payments[i].t| == 4 && Account(payments[i].payer) in accounts && Account(payments[i].payee) in accounts
  }

  function PayAll(s: Store, accounts: seq<string>, payments: seq<Payment>): Store
    requires Listed(payments, accounts)
    decreases |payments|
  {
    if payments == [] then s else PayAll(PayOne(s, payments[0]), accounts, payments[1..])
  }

  ghost predicate NonNegativeAfterEach(s: Store, accounts: seq<string>, payments: seq<Payment>)
    requires Listed(payments, accounts)
    decreases |payments|
  {
    NonNegative(s, accounts) &&
    (payments == [] || NonNegativeAfterEach(PayOne(s, payments[0]), accounts, payments[1..]))
  }

  ghost predicate AllSafe(s: Store, accounts: seq<string>, payments: seq<Payment>)
    requires Listed(payments, accounts)
    decreases |payments|
  {
    payments == [] ||
    (SafePay(s, payments[0].payer, payments[0].payee, payments[0].amount)
     && AllSafe(PayOne(s, payments[0]), accounts, payments[1..]))
  }

  /** Serialised pays: over any sequence of pays, no balance is ever negative after a pay if and only
      if every pay is safe when its turn comes. */
  lemma {:induction false} SerialisedPaysKeepNonNegative(s: Store, accounts: seq<string>, payments: seq<Payment>)
    requires LastingAccounts(s, accounts) && NonNegative(s, accounts) && Listed(payments, accounts)
    ensures LastingAccounts(PayAll(s, accounts, payments), accounts)
    ensures NonNegativeAfterEach(s, accounts, payments) <==> AllSafe(s, accounts, payments)
    decreases |payments|
  {
    if payments == [] {
    } else {
      var p := payments[0];
      SequentialPayKeepsNonNegative(s, p.payer, p.payee, p.amount, p.t, accounts);
      hide SequentialPay, SafePay, LastingAccounts, NonNegative, Account;
      if NonNegative(PayOne(s, p), accounts) {
        SerialisedPaysKeepNonNegative(PayOne(s, p), accounts, payments[1..]);
      } else {
        LastingAfterAll(PayOne(s, p), accounts, payments[1..]);
      }
    }
  }

  lemma {:induction false} LastingAfterAll(s: Store, accounts: seq<string>, payments: seq<Payment>)
    requires LastingAccounts(s, accounts) && Listed(payments, accounts)
    ensures LastingAccounts(PayAll(s, accounts, payments), accounts)
    decreases |payments|
  {
    if payments == [] {
    } else {
      var p := payments[0];
      hide SequentialPay, Account, CellAt, Permanent;
      forall a | a in accounts ensures Permanent(CellAt(PayOne(s, p), a).str) {
        SequentialPayBalances(s, p.payer, p.payee, p.amount, p.t, a);
      }
      LastingAfterAll(PayOne(s, p), accounts, payments[1..]);
    }
  }

  // ---------- sums that are not negative ----------

  /** No payment asks for a negative sum. */
  predicate NoNegativeSums(payments: seq<Payment>) {
    forall i :: 0 <= i < |payments| ==>
      match ParseLong(payments[i].amount)
      case None => true
      case Some(sum) => sum >= 0
  }

  lemma {:induction false} SumNonNegative(accounts: seq<string>, f: string -> int)
    requires forall a <- accounts :: f(a) >= 0
    ensures Sum(accounts, f) >= 0
    ensures forall a <- accounts :: f(a) <= Sum(accounts, f)
    ensures Distinct(accounts) ==>
      forall a, b :: a in accounts && b in accounts && a != b ==> f(a) + f(b) <= Sum(accounts, f)
  {
    if accounts == [] {
    } else {
      SumNonNegative(accounts[1..], f);
    }
  }

  /** A safe pay moves money and makes none. */
  lemma {:induction false} SafePayConserves(s: Store, p: Payment, accounts: seq<string>)
    requires |p.t| == 4 && Distinct(accounts) && LastingAccounts(s, accounts) && NonNegative(s, accounts)
    requires Account(p.payer) in accounts && Account(p.payee) in accounts
    requires SafePay(s, p.payer, p.payee, p.amount)
    ensures Sum(accounts, BalanceIn(PayOne(s, p))) == Sum(accounts, BalanceIn(s))
  {
    hide SequentialPay, Balance, CellAt, Account, Permanent, Moved, Sum;
    var from, to, sum := Account(p.payer), Account(p.payee), MovedSum(s, p.payer, p.amount);
    var debited := (a: string) => Balance(s, a) - (if a == from then sum else 0);
    MovedInRange(s, p.payer, p.amount);
    BalanceInRange(s, from);
    forall a | a in accounts
      ensures Balance(PayOne(s, p), a) == Balance(s, a) + Change(a, from, to, sum)
    {
      BalanceInRange(s, a);
      PaidAccount(s, p.payer, p.payee, p.amount, p.t, a);
    }
    SumOneChange(accounts, BalanceIn(s), debited, from);
    SumOneChange(accounts, debited, BalanceIn(PayOne(s, p)), to);
  }

  /** With no negative sums and no more money in all accounts together than 64 bits can hold, every
      pay is safe: the handler's own check is then enough. */
  lemma {:induction false} OrdinaryPaysAreSafe(s: Store, accounts: seq<string>, payments: seq<Payment>)
    requires LastingAccounts(s, accounts) && NonNegative(s, accounts) && Listed(payments, accounts)
    requires Distinct(accounts) && NoNegativeSums(payments) && Sum(accounts, BalanceIn(s)) <= INT64_MAX
    ensures AllSafe(s, accounts, payments) && NonNegativeAfterEach(s, accounts, payments)
    decreases |payments|
  {
    if payments == [] {
    } else {
      var p := payments[0];
      OrdinaryPayIsSafe(s, accounts, p);
      SafePayConserves(s, p, accounts);
      SequentialPayKeepsNonNegative(s, p.payer, p.payee, p.amount, p.t, accounts);
      assert forall i :: 0 <= i < |payments[1..]| ==> payments[1..][i] == payments[i + 1];
      hide SequentialPay, SafePay, LastingAccounts, NonNegative, Account, Sum, BalanceIn, ParseLong, Distinct;
      OrdinaryPaysAreSafe(PayOne(s, p), accounts, payments[1..]);
    }
  }

  lemma {:induction false} OrdinaryPayIsSafe(s: Store, accounts: seq<string>, p: Payment)
    requires NonNegative(s, accounts) && Distinct(accounts) && Sum(accounts, BalanceIn(s)) <= INT64_MAX
    requires Account(p.payer) in accounts && Account(p.payee) in accounts
    requires ParseLong(p.amount).Some? ==> ParseLong(p.amount).value >= 0
    ensures SafePay(s, p.payer, p.payee, p.amount)
  {
    var from, to := Account(p.payer), Account(p.payee);
    if Moved(s, p.payer, p.amount).Some? {
      FundsAreBalance(s, from);
    }
    SumNonNegative(accounts, BalanceIn(s));
    hide Sum, Account, Funds, ParseLong, Balance, Distinct;
    assert BalanceIn(s)(from) == Balance(s, from) && BalanceIn(s)(to) == Balance(s, to);
  }

  // ---------- the asynchronous pay, undisturbed ----------

  /** The five turns of one asynchronous pay with nothing in between; deciding takes no command. */
  function Alone(s: Store, p: Pay, t: seq<int>): (Store, Pay)
    requires |t| == 4
  {
    var (s1, p1) := Advance(s, t[0], p);
    var (s2, p2) := Advance(s1, t[1], p1);
    var (s3, p3) := Advance(s2, t[1], p2);
    var (s4, p4) := Advance(s3, t[2], p3);
    Advance(s4, t[3], p4)
  }

  /** Undisturbed, the asynchronous pay does what the sequential one does, except that it also insists
      on reading the payee's balance as a number. */
  lemma {:induction false} AloneIsSequential(s: Store, p: Pay, t: seq<int>)
    requires |t| == 4 && p.stage == ReadSender
    ensures var (s1, funds) := GetBalance(s, t[0], Account(p.payer));
      var (s2, other) := GetBalance(s1, t[1], Account(p.payee));
      var (after, outcome) := SequentialPay(s, p.payer, p.payee, p.amount, t);
      Alone(s, p, t) ==
        if funds.Some? && other == None then (s2, p.(stage := Finished(InvalidAmount)))
        else (after, p.(stage := Finished(outcome)))
  {
    hide Apply, Account, ReadBalance, ParseLong, Wrap64;
  }
}
