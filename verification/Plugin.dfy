/** The example plugin: command handlers that talk to the server through the client. */
module Plugin {
  import opened Prelude
  import opened Decimal
  import opened Keyspace
  import opened Wire
  import opened Money
  import opened Payments
  import opened Deadlines
  import Text
  import C = Client

  class MoneyCommandExample {
    const client: C.RedicraftClient

    constructor (client: C.RedicraftClient)
      ensures this.client == client
    {
      this.client := client;
    }

    /** `handlePayCommand`: check the payer's balance, then debit and credit. The four commands run at
        clock readings `t`. */
    method HandlePay(payer: string, payee: string, amount: string, t: seq<int>) returns (outcome: Outcome)
      requires |t| == 4 && Text.IsWord(Account(payer)) && Text.IsWord(Account(payee))
      requires TidyStore(client.session.storage.Contents())
      modifies client.session, client.session.storage
      ensures (client.session.storage.Contents(), outcome)
           == SequentialPay(old(client.session.storage.Contents()), payer, payee, amount, t)
      ensures TidyStore(client.session.storage.Contents())
    {
      hide TidyStore, Apply, Account, ParseLong, Wrap64, Text.IsWord, AddToBalance;
      var funds := ReadFunds(Account(payer), t[0]);
      if funds == None {
        return InvalidAmount;
      }
      var _ := ReadFunds(Account(payee), t[1]);  // read, but not looked at
      var sum := ParseLong(amount);
      if sum == None {
        return InvalidAmount;
      }
      if funds.value < sum.value {
        return InsufficientFunds;
      }
      Transfer(payer, payee, sum.value, t[2], t[3]);
      return Transferred;
    }

    /** GET and `Long.parseLong`, a missing balance being 0. */
    method ReadFunds(account: string, now: int) returns (funds: Option<int>)
      requires Text.IsWord(account) && TidyStore(client.session.storage.Contents())
      modifies client.session, client.session.storage
      ensures (client.session.storage.Contents(), funds)
           == GetBalance(old(client.session.storage.Contents()), now, account)
      ensures TidyStore(client.session.storage.Contents())
    {
      Sends(client.session.storage.Contents(), now, account, Op.Get);
      RepliesFit(CellAt(client.session.storage.Contents(), account), now, Op.Get);
      hide TidyStore, ParseLong, Text.IsWord, Deliverable, Step;
      var balance := client.Get(account, now);
      funds := if balance.word == None then Some(0) else ParseLong(balance.word.value);
    }

    /** The debit, then the credit. */
    method Transfer(payer: string, payee: string, sum: int, debitAt: int, creditAt: int)
      requires Text.IsWord(Account(payer)) && Text.IsWord(Account(payee)) && InInt64(sum)
      requires TidyStore(client.session.storage.Contents())
      modifies client.session, client.session.storage
      ensures client.session.storage.Contents() == AddToBalance(
        AddToBalance(old(client.session.storage.Contents()), debitAt, Account(payer), Wrap64(-sum)),
        creditAt, Account(payee), sum)
      ensures TidyStore(client.session.storage.Contents())
    {
      hide TidyStore, Apply, Account, Wrap64, Text.IsWord, Deliverable;
      Sends(client.session.storage.Contents(), debitAt, Account(payer), Op.IncrBy(Wrap64(-sum)));
      var _ := client.IncrBy(Account(payer), Wrap64(-sum), debitAt);
      Sends(client.session.storage.Contents(), creditAt, Account(payee), Op.IncrBy(sum));
      var _ := client.IncrBy(Account(payee), sum, creditAt);
    }

    /** `handleTempBanCommand`: the flag, then its deadline; `None` is an invalid duration. */
    method HandleTempBan(player: string, duration: string, setAt: int, expireAt: int) returns (banned: Option<bool>)
      requires Text.IsWord(BanKey(player)) && TidyStore(client.session.storage.Contents())
      modifies client.session, client.session.storage
      ensures TidyStore(client.session.storage.Contents())
      ensures banned == None <==> ParseLong(duration) == None
      ensures ParseLong(duration) == None ==>
        client.session.storage.Contents() == old(client.session.storage.Contents())
      ensures ParseLong(duration).Some? ==>
        && banned == Some(true)
        && client.session.storage.Contents()
             == Final(old(client.session.storage.Contents()),
                      BanCommands(player, ParseLong(duration).value, setAt, expireAt))
    {
      var seconds := ParseLong(duration);
      if seconds == None {
        return None;
      }
      TrueIsWord();
      BanRun(client.session.storage.Contents(), player, seconds.value, setAt, expireAt);
      hide TidyStore, Apply, BanKey, BanCommands, Final, ParseLong, Text.IsWord;
      var _ := client.Set(BanKey(player), "true", setAt);
      var done := client.Expire(BanKey(player), seconds.value, expireAt);
      return Some(done == Bool(true));
    }

    /** `isPlayerBanned` asks for the time to live of the flag. */
    method IsPlayerBanned(player: string, now: int) returns (banned: bool)
      requires Text.IsWord(BanKey(player)) && TidyStore(client.session.storage.Contents())
      modifies client.session, client.session.storage
      ensures TidyStore(client.session.storage.Contents())
      ensures var (after, reply) := Apply(old(client.session.storage.Contents()), Event(now, BanKey(player), Op.Ttl));
        client.session.storage.Contents() == after && banned == SaysBanned(reply)
    {
      RepliesFit(CellAt(client.session.storage.Contents(), BanKey(player)), now, Op.Ttl);
      hide TidyStore, Step, BanKey, Text.IsWord;
      var ttl := client.Ttl(BanKey(player), now);
      banned := ttl.Long? && ttl.n >= 0;
    }
  }

  /** A read or an INCRBY on a word key can always be sent. */
  lemma {:induction false} Sends(s: Store, now: int, key: string, op: Op)
    requires TidyStore(s) && Text.IsWord(key) && (op.Get? || op.IncrBy?)
    requires op.IncrBy? ==> InInt64(op.increment)
    ensures Deliverable(s, now, key, op)
  {
    hide TidyStore, Apply;
  }

  lemma TrueIsWord()
    ensures Text.IsWord("true")
  {
  }

  lemma {:induction false} BanRun(s: Store, player: string, seconds: int, setAt: int, expireAt: int)
    ensures var flag := Event(setAt, BanKey(player), Op.Set("true"));
      var retime := Event(expireAt, BanKey(player), Op.Expire(seconds));
      && Final(s, BanCommands(player, seconds, setAt, expireAt)) == Apply(Apply(s, flag).0, retime).0
      && Apply(Apply(s, flag).0, retime).1 == Flag(true)
  {
    var commands := BanCommands(player, seconds, setAt, expireAt);
    var s1 := Apply(s, commands[0]).0;
    assert commands[1..] == [commands[1]] && [commands[1]][1..] == [];
    assert Final(s, commands) == Final(s1, [commands[1]]) == Final(Apply(s1, commands[1]).0, []);
    var c := Step(CellAt(s, BanKey(player)), setAt, Op.Set("true")).0;
    CellAfterPut(s, BanKey(player), c, BanKey(player));
    assert c.str.Some?;
    hide BanKey, DeadlineAfter, PutCell;
  }
}
