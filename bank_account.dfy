/** A bank account: a balance guarded by the withdrawal rules, and an
    account number that no operation changes. */
module Bank {
  import opened Runtime

  const InitialBalance: int32 := 10000
  const InitialAccountNumber: int32 := 10000
  const NonPositiveWithdrawalMessage := "Cannot withdraw nothing or a negative amount. "
  const InsufficientFundsMessage := "Insufficient funds. "

  class BankAccount {
    /** The database key, assigned by the persistence layer. */
    var id: int32
    var balance: int32
    var accountNumber: int32

    /** A new account holds 10000 under account number 10000. */
    constructor ()
      ensures id == 0
      ensures balance == InitialBalance && accountNumber == InitialAccountNumber
    {
      id := 0;
      balance := InitialBalance;
      accountNumber := InitialAccountNumber;
    }

    /** Takes `amount` out of the account. A non-positive amount or one larger
        than the balance is refused with an InvalidOperationException, and the
        balance stays as it was; otherwise the new balance is returned. Only
        the balance may change. */
    method Withdraw(amount: int32) returns (r: Result<int32>)
      modifies this`balance
      ensures amount <= 0 ==>
        r == Throw(InvalidOperation(NonPositiveWithdrawalMessage)) && balance == old(balance)
      ensures 0 < amount && amount > old(balance) ==>
        r == Throw(InvalidOperation(InsufficientFundsMessage)) && balance == old(balance)
      ensures 0 < amount <= old(balance) ==>
        balance == old(balance) - amount && r == Ok(balance) && balance >= 0
    {
      if amount <= 0 {
        return Throw(InvalidOperation(NonPositiveWithdrawalMessage));
      } else if amount > balance {
        return Throw(InvalidOperation(InsufficientFundsMessage));
      } else {
        balance := balance - amount;
      }
      r := Ok(balance);
    }

    /** Adds `amount`, whatever its sign, with C#'s unchecked 32-bit addition,
        and returns the new balance. Only the balance may change. */
    method Deposit(amount: int32) returns (r: int32)
      modifies this`balance
      ensures balance == UncheckedAdd(old(balance), amount) && r == balance
    {
      balance := UncheckedAdd(balance, amount);
      r := balance;
    }

    /** Reads the balance; a method without `modifies` changes nothing. */
    method GetBalance() returns (b: int32)
      ensures b == balance
    {
      b := balance;
    }

    /** Reads the account number; changes nothing. */
    method GetAccountNumber() returns (n: int32)
      ensures n == accountNumber
    {
      n := accountNumber;
    }
  }

  /** Withdrawing what was just deposited puts the balance back, provided the
      balance was not negative and the deposit did not overflow: Withdraw
      undoes Deposit. */
  method DepositThenWithdraw(account: BankAccount, amount: int32) returns (r: Result<int32>)
    requires 0 < amount && 0 <= account.balance
    requires account.balance as int + amount as int <= Int32Max
    modifies account
    ensures account.balance == old(account.balance) && r == Ok(account.balance)
    ensures account.accountNumber == old(account.accountNumber)
  {
    var _ := account.Deposit(amount);
    r := account.Withdraw(amount);
  }

  /** The unit tests' account scenarios, each on a fresh account, from the
      contracts alone: a deposit of 5000 gives 15000; an overdraft of 15000
      and withdrawals of 0 and -10 throw and leave 10000; a withdrawal of
      5000 leaves 5000. */
  method FreshAccountScenarios()
    returns (deposited: int32, overdraft: Result<int32>, afterOverdraft: int32,
             withdrawn: int32, zero: Result<int32>, negative: Result<int32>, afterRefusals: int32)
    ensures deposited == 15000
    ensures overdraft == Throw(InvalidOperation(InsufficientFundsMessage)) && afterOverdraft == 10000
    ensures withdrawn == 5000
    ensures zero == Throw(InvalidOperation(NonPositiveWithdrawalMessage))
    ensures negative == Throw(InvalidOperation(NonPositiveWithdrawalMessage))
    ensures afterRefusals == 10000
  {
    var a := new BankAccount();
    var _ := a.Deposit(5000);
    deposited := a.balance;
    var b := new BankAccount();
    overdraft := b.Withdraw(15000);
    afterOverdraft := b.GetBalance();
    var c := new BankAccount();
    var _ := c.Withdraw(5000);
    withdrawn := c.GetBalance();
    var d := new BankAccount();
    zero := d.Withdraw(0);
    negative := d.Withdraw(-10);
    afterRefusals := d.GetBalance();
  }
}
