/** A wallet holding a bitcoin balance that can be deposited into and withdrawn from. */
module Wallets {
  import opened Wrappers

  /** The one error a wallet reports. */
  datatype WalletErr = ErrInsufficientFunds {
    /** The message, spelled as the wallet reports it. */
    function Error(): (message: string)
      ensures message == "withdraw insufficienct funds"
    {
      "withdraw insufficienct funds"
    }
  }

  class Wallet {
    /** The balance, in bitcoin. */
    var balance: real

    /** The zero wallet. */
    constructor()
      ensures balance == 0.0
    {
      balance := 0.0;
    }

    method Deposit(amount: real)
      modifies this
      ensures balance == old(balance) + amount
    {
      balance := balance + amount;
    }

    method Balance() returns (b: real)
      ensures b == balance
    {
      b := balance;
    }

    /** Refuses, leaving the balance as it was, when the amount exceeds the balance;
        otherwise takes the amount out, which can never leave the balance negative. */
    method Withdraw(amount: real) returns (err: Option<WalletErr>)
      modifies this
      ensures old(balance) < amount ==> err == Some(ErrInsufficientFunds) && balance == old(balance)
      ensures amount <= old(balance) ==> err == None && balance == old(balance) - amount
      ensures err == None ==> balance >= 0.0
    {
      if balance < amount {
        return Some(ErrInsufficientFunds);
      }
      balance := balance - amount;
      return None;
    }
  }

  /** Whatever is deposited into a fresh wallet can be withdrawn in full, and no more. */
  method DepositThenWithdraw(deposit: real, withdraw: real) returns (err: Option<WalletErr>, balance: real)
    ensures withdraw <= deposit <==> err == None
    ensures err == None ==> balance == deposit - withdraw
    ensures err != None ==> balance == deposit
  {
    var wallet := new Wallet();
    wallet.Deposit(deposit);
    err := wallet.Withdraw(withdraw);
    balance := wallet.Balance();
  }

  /** The wallet tests: deposit 10 and withdraw nothing, then deposit 10 and withdraw 10. */
  method WalletScenario() returns (kept: real, keptErr: Option<WalletErr>, drained: real, drainedErr: Option<WalletErr>)
    ensures kept == 10.0 && keptErr == None
    ensures drained == 0.0 && drainedErr == None
  {
    keptErr, kept := DepositThenWithdraw(10.0, 0.0);
    drainedErr, drained := DepositThenWithdraw(10.0, 10.0);
  }
}
