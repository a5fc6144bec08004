// debitWallet as the program runs it: one transaction, statement after statement, with its
// early rollbacks, over the three tables.
module WalletStore {
  import opened Wrappers
  import opened WalletLedger
  import opened Sums

  class Store {
    var wallets: map<Account, Wallet>
    var ledger: seq<Row>
    var events: map<nat, Usage>
    var nextEvent: nat  // the usage_events id sequence
    var intents: set<string>  // payment intents that have a top-up row

    constructor ()
      ensures Contents() == Db(map[], [], map[]) && nextEvent == 0 && intents == {}
    {
      wallets, ledger, events, nextEvent, intents := map[], [], map[], 0, {};
    }

    ghost function Contents(): Db
      reads this
    {
      Db(wallets, ledger, events)
    }

    /** The SUM of the cap gate: debits of the account since the start of the month. */
    method MonthlySpent(a: Account, month: int) returns (spent: nat)
      ensures spent == Sum(ledger, SinceMonth(a, month))
    {
      spent := 0;
      for i := 0 to |ledger|
        invariant spent == Sum(ledger[..i], SinceMonth(a, month))
      {
        var r := ledger[i];
        if r.Debit? && r.account == a && r.month >= month {
          spent := spent + r.amount;
        }
        SumAppend(ledger[..i], r, SinceMonth(a, month));
        assert ledger[..i] + [r] == ledger[..i + 1];
      }
      assert ledger[..|ledger|] == ledger;
    }

    method DebitWallet(a: Account, cost: int, month: int) returns (out: Outcome)
      modifies this
      ensures out == Answer(old(Contents()), a, cost, month) && Justified(old(Contents()), a, cost, month, out)
      ensures Contents() == Apply(old(Contents()), OpDebit(a, cost, month, old(nextEvent)))
      ensures nextEvent == old(nextEvent) + (if out.Debited? then 1 else 0) && intents == old(intents)
    {
      AnswerIff(Contents(), a, cost, month, Answer(Contents(), a, cost, month));
      SpentIsSum(ledger, a, month);
      if cost <= 0 {
        return ZeroCost;
      }
      // SELECT ... FOR UPDATE
      if a !in wallets {
        return NoWallet;
      }
      var wallet := wallets[a];
      if wallet.balance <= 0 || Micros(wallet.balance) < cost {
        return Insufficient;
      }
      if wallet.cap.Some? {
        var spent := MonthlySpent(a, month);
        if spent + cost > wallet.cap.value {
          return CapExceeded;
        }
      }
      // UPDATE ... RETURNING balance_eur
      var newBalance := Stored(Micros(wallets[a].balance) - cost);
      wallets := wallets[a := wallets[a].(balance := newBalance)];
      // INSERT INTO usage_events ... RETURNING id
      var event := nextEvent;
      nextEvent := nextEvent + 1;
      events := events[event := Usage(a, cost)];
      // INSERT INTO ai_wallet_ledger
      ledger := ledger + [Debit(a, cost, newBalance, event, month)];
      out := Debited(newBalance);
    }

    /** A top-up: the top-up row unless the payment intent has one already, upsert of the wallet row,
        then the credit row.  Delivered again, the same payment changes nothing. */
    method TopUp(a: Account, cents: nat, intent: string) returns (created: bool)
      modifies this
      ensures created <==> intent !in old(intents)
      ensures Contents() == if created then Apply(old(Contents()), OpCredit(a, cents)) else old(Contents())
      ensures intents == old(intents) + {intent} && nextEvent == old(nextEvent)
    {
      // INSERT ... ON CONFLICT (stripe_payment_intent_id) DO NOTHING
      if intent in intents {
        return false;
      }
      intents := intents + {intent};
      var amount := FromCents(cents);
      if a in wallets {
        wallets := wallets[a := wallets[a].(balance := wallets[a].balance + amount)];
      } else {
        wallets := wallets[a := Wallet(amount, None)];
      }
      ledger := ledger + [Credit(a, amount, wallets[a].balance)];
      created := true;
    }
  }
}
