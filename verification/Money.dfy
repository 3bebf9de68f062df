/** Payments between players: each pay is a short program of reads and two INCRBY commands on one
    store, and any number of them interleave command by command. */
module Money {
  import opened Prelude
  import opened Decimal
  import opened Keyspace
  import opened Histories
  import Wire

  function Account(player: string): string {
    "player:" + player + ":money"
  }

  /** Every player has an account of their own. */
  lemma {:induction false} AccountsAreDistinct(a: string, b: string)
    ensures Account(a) == Account(b) <==> a == b
  {
    assert |Account(a)| == |a| + 13 && |Account(b)| == |b| + 13;
    assert Account(a)[7..|a| + 7] == a && Account(b)[7..|b| + 7] == b;
  }

  datatype Outcome = Transferred | InsufficientFunds | InvalidAmount

  datatype Stage =
    | ReadSender
    | ReadPayee(funds: int)
    | Decide(funds: int)
    | Debit(sum: int)
    | Credit(sum: int)
    | Finished(outcome: Outcome)

  /** One call of `handlePayCommandAsync`. */
  datatype Pay = Pay(payer: string, payee: string, amount: string, stage: Stage)

  datatype Bank = Bank(store: Store, pays: seq<Pay>)

  /** What the client makes of a balance reply: a missing value is 0, other text must be a number. */
  function ReadBalance(reply: Reply): Option<int>
    requires reply.Text?
  {
    var text := Wire.Received(reply).word;
    if text == None then Some(0) else ParseLong(text.value)
  }

  function GetBalance(s: Store, now: int, account: string): (Store, Option<int>) {
    var (after, reply) := Apply(s, Event(now, account, Op.Get));
    (after, ReadBalance(reply))
  }

  function AddToBalance(s: Store, now: int, account: string, n: int): Store {
    Apply(s, Event(now, account, Op.IncrBy(n))).0
  }

  /** The next command of one pay. */
  function Advance(s: Store, now: int, p: Pay): (Store, Pay) {
    match p.stage
    case ReadSender =>
      var (after, funds) := GetBalance(s, now, Account(p.payer));
      (after, p.(stage := if funds.Some? then ReadPayee(funds.value) else Finished(InvalidAmount)))
    case ReadPayee(funds) =>
      var (after, other) := GetBalance(s, now, Account(p.payee));
      (after, p.(stage := if other.Some? then Decide(funds) else Finished(InvalidAmount)))
    case Decide(funds) =>
      (s, p.(stage := match ParseLong(p.amount)
                      case None => Finished(InvalidAmount)
                      case Some(sum) => if funds < sum then Finished(InsufficientFunds) else Debit(sum)))
    case Debit(sum) => (AddToBalance(s, now, Account(p.payer), Wrap64(-sum)), p.(stage := Credit(sum)))
    case Credit(sum) => (AddToBalance(s, now, Account(p.payee), sum), p.(stage := Finished(Transferred)))
    case Finished(_) => (s, p)
  }

  /** Pay number `i` runs its next command at clock reading `now`. */
  function TakeTurn(b: Bank, i: nat, now: int): (r: Bank)
    requires i < |b.pays|
    ensures |r.pays| == |b.pays|
  {
    var (s, p) := Advance(b.store, now, b.pays[i]);
    Bank(s, b.pays[i := p])
  }

  // ---------- totals ----------

  /** A balance as the server counts: the numeric prefix of the stored text, or 0. */
  function Balance(s: Store, account: string): int {
    Count(CellAt(s, account))
  }

  function BalanceIn(s: Store): string -> int {
    account => Balance(s, account)
  }

  /** Money that has left one account and not reached the other. */
  function InFlight(p: Pay): int {
    if p.stage.Credit? then p.stage.sum else 0
  }

  function Total(b: Bank, accounts: seq<string>): int {
    Sum(accounts, BalanceIn(b.store)) + Sum(b.pays, InFlight)
  }

  predicate Distinct(accounts: seq<string>) {
    forall i, j :: 0 <= i < j < |accounts| ==> accounts[i] != accounts[j]
  }

  /** The accounts never expire. */
  predicate LastingAccounts(s: Store, accounts: seq<string>) {
    forall a :: a in accounts ==> Permanent(CellAt(s, a).str)
  }

  predicate SumsInRange(p: Pay) {
    && (p.stage.Debit? ==> InInt64(p.stage.sum))
    && (p.stage.Credit? ==> InInt64(p.stage.sum))
  }

  /** Accounts are listed once and cover every payer and payee. */
  predicate Sound(b: Bank, accounts: seq<string>) {
    && Distinct(accounts) && LastingAccounts(b.store, accounts)
    && forall i :: 0 <= i < |b.pays| ==>
         Account(b.pays[i].payer) in accounts && Account(b.pays[i].payee) in accounts && SumsInRange(b.pays[i])
  }

  /** The next INCRBY of this pay does not overflow. */
  predicate Fits(s: Store, p: Pay) {
    match p.stage
    case Debit(sum) => InInt64(Balance(s, Account(p.payer)) - sum)
    case Credit(sum) => InInt64(Balance(s, Account(p.payee)) + sum)
    case _ => true
  }

  lemma {:induction false} SumSame(accounts: seq<string>, f: string -> int, g: string -> int)
    requires forall a :: a in accounts ==> f(a) == g(a)
    ensures Sum(accounts, f) == Sum(accounts, g)
  {
    if accounts == [] {
    } else {
      SumSame(accounts[1..], f, g);
    }
  }

  lemma {:induction false} SumOneChange(accounts: seq<string>, f: string -> int, g: string -> int, x: string)
    requires Distinct(accounts) && x in accounts
    requires forall a :: a in accounts && a != x ==> f(a) == g(a)
    ensures Sum(accounts, g) == Sum(accounts, f) - f(x) + g(x)
  {
    if accounts[0] == x {
      assert forall a :: a in accounts[1..] ==> a != x;
      SumSame(accounts[1..], f, g);
    } else {
      SumOneChange(accounts[1..], f, g, x);
    }
  }

  /** What a command on one account does to it and to the others. */
  lemma {:induction false} CommandOnAccount(s: Store, e: Event, other: string)
    requires Permanent(CellAt(s, e.key).str) && (e.op.Get? || e.op.IncrBy?)
    requires e.op.IncrBy? ==> InInt64(e.op.increment)
    ensures Permanent(CellAt(Apply(s, e).0, e.key).str)
    ensures Balance(Apply(s, e).0, e.key) == Wrap64(Balance(s, e.key) + Delta(e.op))
    ensures other != e.key ==> CellAt(Apply(s, e).0, other) == CellAt(s, other)
  {
    CountStep(CellAt(s, e.key), e);
    CellAfterPut(s, e.key, After(CellAt(s, e.key), e), e.key);
    CellAfterPut(s, e.key, After(CellAt(s, e.key), e), other);
  }

  lemma {:induction false} CommandOnAccounts(s: Store, e: Event, accounts: seq<string>)
    requires Distinct(accounts) && LastingAccounts(s, accounts) && e.key in accounts && (e.op.Get? || e.op.IncrBy?)
    requires e.op.IncrBy? ==> InInt64(e.op.increment)
    ensures LastingAccounts(Apply(s, e).0, accounts)
    ensures Sum(accounts, BalanceIn(Apply(s, e).0))
         == Sum(accounts, BalanceIn(s)) - Balance(s, e.key) + Wrap64(Balance(s, e.key) + Delta(e.op))
  {
    var after := Apply(s, e).0;
    forall a | a in accounts
      ensures Permanent(CellAt(after, a).str) && (a != e.key ==> Balance(after, a) == Balance(s, a))
    {
      CommandOnAccount(s, e, a);
    }
    CommandOnAccount(s, e, e.key);
    hide Apply, CellAt, Wrap64, Count, Permanent, Sum, Delta;
    SumOneChange(accounts, BalanceIn(s), BalanceIn(after), e.key);
  }

  /** One command keeps the bank sound, and the total exactly unless it overflows. */
  lemma {:induction false} AdvanceConserves(s: Store, now: int, p: Pay, accounts: seq<string>)
    requires Distinct(accounts) && LastingAccounts(s, accounts)
    requires Account(p.payer) in accounts && Account(p.payee) in accounts && SumsInRange(p)
    ensures var (after, q) := Advance(s, now, p);
      && LastingAccounts(after, accounts) && SumsInRange(q) && q.payer == p.payer && q.payee == p.payee
      && (Sum(accounts, BalanceIn(after)) + InFlight(q) == Sum(accounts, BalanceIn(s)) + InFlight(p) <==> Fits(s, p))
  {
    hide Distinct, LastingAccounts, Sum, Apply, Account, BalanceIn;
    match p.stage
    case ReadSender => CommandOnAccounts(s, Event(now, Account(p.payer), Op.Get), accounts);
    case ReadPayee(_) => CommandOnAccounts(s, Event(now, Account(p.payee), Op.Get), accounts);
    case Debit(sum) =>
      CommandOnAccounts(s, Event(now, Account(p.payer), Op.IncrBy(Wrap64(-sum))), accounts);
      WrapWraps(-sum, Balance(s, Account(p.payer)));
    case Credit(sum) => CommandOnAccounts(s, Event(now, Account(p.payee), Op.IncrBy(sum)), accounts);
    case _ =>
  }

  lemma {:induction false} StepConserves(b: Bank, accounts: seq<string>, i: nat, now: int)
    requires Sound(b, accounts) && i < |b.pays|
    ensures Sound(TakeTurn(b, i, now), accounts)
    ensures Total(TakeTurn(b, i, now), accounts) == Total(b, accounts) <==> Fits(b.store, b.pays[i])
  {
    hide Distinct, LastingAccounts, Sum, Account, BalanceIn, SumsInRange, Advance, InFlight, Fits;
    AdvanceConserves(b.store, now, b.pays[i], accounts);
    SumUpdate(b.pays, i, Advance(b.store, now, b.pays[i]).1, InFlight);
  }

  // ---------- any interleaving ----------

  /** Which pay moves, and when. */
  datatype Turn = Turn(pay: nat, now: int)

  predicate Schedules(turns: seq<Turn>, pays: nat) {
    forall i :: 0 <= i < |turns| ==> turns[i].pay < pays
  }

  ghost predicate FitsThroughout(b: Bank, turns: seq<Turn>)
    requires Schedules(turns, |b.pays|)
    decreases |turns|
  {
    turns == [] ||
    (Fits(b.store, b.pays[turns[0].pay]) && FitsThroughout(TakeTurn(b, turns[0].pay, turns[0].now), turns[1..]))
  }

  ghost predicate TotalThroughout(b: Bank, accounts: seq<string>, turns: seq<Turn>, total: int)
    requires Schedules(turns, |b.pays|)
    decreases |turns|
  {
    Total(b, accounts) == total &&
    (turns == [] || TotalThroughout(TakeTurn(b, turns[0].pay, turns[0].now), accounts, turns[1..], total))
  }

  function Play(b: Bank, turns: seq<Turn>): Bank
    requires Schedules(turns, |b.pays|)
    decreases |turns|
  {
    if turns == [] then b else Play(TakeTurn(b, turns[0].pay, turns[0].now), turns[1..])
  }

  /** Money is conserved: under every interleaving of any number of pays, self-pays and negative
      amounts included, balances plus money in flight stay constant exactly as long as no INCRBY
      overflows. */
  lemma {:induction false} MoneyIsConserved(b: Bank, accounts: seq<string>, turns: seq<Turn>)
    requires Sound(b, accounts) && Schedules(turns, |b.pays|)
    ensures TotalThroughout(b, accounts, turns, Total(b, accounts)) <==> FitsThroughout(b, turns)
    ensures FitsThroughout(b, turns) ==> Total(Play(b, turns), accounts) == Total(b, accounts)
    decreases |turns|
  {
    if turns == [] {
    } else {
      hide Sound, Total, TakeTurn, Fits;
      var i, now := turns[0].pay, turns[0].now;
      StepConserves(b, accounts, i, now);
      MoneyIsConserved(TakeTurn(b, i, now), accounts, turns[1..]);
    }
  }

  predicate AtRest(b: Bank) {
    forall i :: 0 <= i < |b.pays| ==> !b.pays[i].stage.Credit?
  }

  lemma {:induction false} NothingInFlight(pays: seq<Pay>)
    requires forall i :: 0 <= i < |pays| ==> !pays[i].stage.Credit?
    ensures Sum(pays, InFlight) == 0
  {
    if pays == [] {
    } else {
      NothingInFlight(pays[1..]);
    }
  }

  /** From rest to rest, the balances themselves add up to the same sum. */
  lemma {:induction false} BalancesAreConserved(b: Bank, accounts: seq<string>, turns: seq<Turn>)
    requires Sound(b, accounts) && Schedules(turns, |b.pays|) && FitsThroughout(b, turns)
    requires AtRest(b) && AtRest(Play(b, turns))
    ensures Sum(accounts, BalanceIn(Play(b, turns).store)) == Sum(accounts, BalanceIn(b.store))
  {
    MoneyIsConserved(b, accounts, turns);
    NothingInFlight(b.pays);
    NothingInFlight(Play(b, turns).pays);
  }
}
