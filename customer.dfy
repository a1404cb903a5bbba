/** A customer: name, e-mail address and password that the property setters
    overwrite, and a list of bank accounts that only grows. */
module Customers {
  import opened Runtime
  import opened Bank

  class Customer {
    /** The database key, assigned by the persistence layer. */
    var id: int32
    var name: string
    var email: string
    var password: string
    /** `None` is the null list left by the parameterless constructor. */
    var accounts: Option<seq<BankAccount?>>

    /** The parameterless constructor (used by JSON deserialisation): no
        account list. Its null strings are modelled as empty strings. */
    constructor Blank()
      ensures id == 0 && name == "" && email == "" && password == ""
      ensures accounts == None
    {
      id := 0;
      name, email, password := "", "", "";
      accounts := None;
    }

    /** Stores the three values and starts with an empty account list. */
    constructor (name: string, email: string, password: string)
      ensures id == 0
      ensures this.name == name && this.email == email && this.password == password
      ensures accounts == Some([])
    {
      id := 0;
      this.name, this.email, this.password := name, email, password;
      accounts := Some([]);
    }

    /** The `Name` setter: the getter then returns `value`. */
    method SetName(value: string)
      modifies this`name
      ensures name == value
    {
      name := value;
    }

    /** The `Email` setter. */
    method SetEmail(value: string)
      modifies this`email
      ensures email == value
    {
      email := value;
    }

    /** The `Password` setter. */
    method SetPassword(value: string)
      modifies this`password
      ensures password == value
    {
      password := value;
    }

    /** Appends `account` (null included, as `List.Add` allows) to the list,
        with no limit and no check for duplicates; on a customer without a
        list it throws. Name, e-mail address and password are untouched. */
    method AddAccount(account: BankAccount?) returns (r: Result<()>)
      modifies this`accounts
      ensures old(accounts).None? ==> r == Throw(NullReference) && accounts == None
      ensures old(accounts).Some? ==> r == Ok(()) && accounts == Some(old(accounts).value + [account])
    {
      if accounts.None? {
        return Throw(NullReference);
      }
      accounts := Some(accounts.value + [account]);
      r := Ok(());
    }
  }

  /** The scenario of the unit tests: three accounts added to a new customer
      give a list of exactly those three, in the order added. */
  method ThreeAccounts() returns (c: Customer, first: BankAccount, second: BankAccount, third: BankAccount)
    ensures c.accounts == Some([first, second, third])
  {
    c := new Customer("Test user", "test@mail.com", "1234");
    first := new BankAccount();
    second := new BankAccount();
    third := new BankAccount();
    var _ := c.AddAccount(first);
    var _ := c.AddAccount(second);
    var _ := c.AddAccount(third);
    assert c.accounts.value == [] + [first] + [second] + [third] == [first, second, third];
  }

  /** No deduplication: the same account added three times is listed three
      times. */
  method SameAccountThrice() returns (c: Customer, a: BankAccount)
    ensures c.accounts == Some([a, a, a])
  {
    c := new Customer("Test user", "test@mail.com", "1234");
    a := new BankAccount();
    var _ := c.AddAccount(a);
    var _ := c.AddAccount(a);
    var _ := c.AddAccount(a);
    assert c.accounts.value == [] + [a] + [a] + [a] == [a, a, a];
  }
}
