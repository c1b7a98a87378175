/** Deposits into a user's account (app/services/account_services.py). */
module AccountService {
  import opened Common
  import opened Records
  import opened Db

  /** The balance an upsert starts from: the stored one, or 0 for a new account. */
  function BalanceOf(accounts: map<UserId, Account>, userId: UserId): int
  {
    if userId in accounts then accounts[userId].balance else 0
  }

  /** $inc balance by amount with upsert: the account now exists, its balance
      grew by exactly `amount`, it is stamped with the time of the write, and
      every other account is as it was. */
  function Deposited(accounts: map<UserId, Account>, userId: UserId, amount: int, now: Time): (r: map<UserId, Account>)
    ensures r.Keys == accounts.Keys + {userId}
    ensures r[userId].balance == BalanceOf(accounts, userId) + amount && r[userId].updatedAt == now
    ensures userId !in accounts ==> r[userId].balance == amount
    ensures forall u :: u in accounts && u != userId ==> r[u] == accounts[u]
  {
    accounts[userId := Account(BalanceOf(accounts, userId) + amount, now)]
  }

  /** Two deposits to the same account add up to one of their sum. */
  lemma DepositsAdd(accounts: map<UserId, Account>, userId: UserId, a1: int, t1: Time, a2: int, t2: Time)
    ensures Deposited(Deposited(accounts, userId, a1, t1), userId, a2, t2) == Deposited(accounts, userId, a1 + a2, t2)
  {
  }

  /** A valid deposit never lowers a balance and never touches other accounts. */
  lemma DepositOnlyRaises(accounts: map<UserId, Account>, userId: UserId, amount: int, now: Time, u: UserId)
    requires amount > 0 && u in accounts
    ensures u in Deposited(accounts, userId, amount, now)
    ensures Deposited(accounts, userId, amount, now)[u].balance >= accounts[u].balance
    ensures u != userId ==> Deposited(accounts, userId, amount, now)[u] == accounts[u]
  {
  }

  /** deposit: a non-positive amount fails and changes nothing; otherwise the
      balance is incremented, or the account created with it. */
  method Deposit(db: Database, userId: UserId, amount: int, now: Time) returns (failure: Option<Error>)
    modifies db`accounts
    ensures amount <= 0 ==> failure == Some(InvalidAmount) && db.accounts == old(db.accounts)
    ensures amount > 0 ==> failure == None && db.accounts == Deposited(old(db.accounts), userId, amount, now)
  {
    if amount <= 0 {
      return Some(InvalidAmount);
    }
    if userId in db.accounts {
      db.accounts := db.accounts[userId := Account(db.accounts[userId].balance + amount, now)];
    } else {
      db.accounts := db.accounts[userId := Account(amount, now)];
    }
    return None;
  }
}
