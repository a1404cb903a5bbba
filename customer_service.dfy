/** The customer service: it admits a customer to the repository only when
    both input checks pass, and answers profile requests from the repository
    with exceptions for an empty id and an unknown one. */
module CustomerServices {
  import opened Runtime
  import opened Customers
  import opened Repositories
  import CustomerValidation

  const InvalidCustomerMessage := "Customer name or e-mail address is invalid. "
  const EmptyUserIdMessage := "User ID cannot be null or empty."
  const ProfileNotFoundMessage := "Customer profile not found."

  /** Both input checks that Create applies: the name is spaced words with no
      character three times in a row, and the address has the local@domain
      shape, each less one final line feed. */
  predicate PassesChecks(name: string, email: string): (ok: bool)
    ensures ok <==>
      && CustomerValidation.IsSpacedWords(CustomerValidation.Body(name))
      && !CustomerValidation.HasTripleRun(CustomerValidation.Body(name))
      && CustomerValidation.IsEmailShape(CustomerValidation.Body(email))
  {
    CustomerValidation.ValidateCustomerName(name) && CustomerValidation.ValidateCustomerEmail(email)
  }

  /** The answer to a profile request against a dictionary of stored values:
      the empty id is an argument error, an absent key is not found, and a
      present key yields what is stored there. */
  function ProfileLookup<C>(store: map<string, C>, userId: string): (r: Result<C>)
    ensures r.Ok? <==> userId != "" && userId in store
    ensures r.Ok? ==> r.value == store[userId]
    ensures r.Throw? ==>
      r.exception == (if userId == "" then Argument(EmptyUserIdMessage) else KeyNotFound(ProfileNotFoundMessage))
  {
    if userId == "" then Throw(Argument(EmptyUserIdMessage))
    else if userId !in store then Throw(KeyNotFound(ProfileNotFoundMessage))
    else Ok(store[userId])
  }

  class CustomerService {
    var repository: CustomerRepository

    constructor (repo: CustomerRepository)
      ensures repository == repo
    {
      repository := repo;
    }

    /** Stores the (already deserialised) customer and returns it when its
        name and its e-mail address both pass their checks; otherwise throws
        and leaves the repository exactly as it was. */
    method Create(customer: Customer) returns (r: Result<Customer>)
      modifies repository`customers
      ensures PassesChecks(customer.name, customer.email) ==>
        r == Ok(customer)
        && repository.customers == old(repository.customers)[KeyOf(customer.id) := customer]
      ensures !PassesChecks(customer.name, customer.email) ==>
        r == Throw(InvalidOperation(InvalidCustomerMessage))
        && repository.customers == old(repository.customers)
    {
      var nameValidated := CustomerValidation.ValidateCustomerName(customer.name);
      var emailValidated := CustomerValidation.ValidateCustomerEmail(customer.email);
      if nameValidated && emailValidated {
        var stored := repository.Create(customer);
        r := Ok(stored);
      } else {
        r := Throw(InvalidOperation(InvalidCustomerMessage));
      }
    }

    /** The stored customer for `userId`. The empty id fails before the
        repository is asked; a key the repository does not hold fails with
        not-found, so a null customer is never returned. Changes nothing. */
    method GetCustomerProfile(userId: string) returns (r: Result<Customer>)
      ensures r == ProfileLookup(repository.customers, userId)
    {
      if userId == "" {
        return Throw(Argument(EmptyUserIdMessage));
      }
      var customer := repository.GetById(userId);
      if customer == null {
        return Throw(KeyNotFound(ProfileNotFoundMessage));
      }
      r := Ok(customer);
    }
  }

  /** The text of an id is never empty, so a customer just stored is found
      under it: Create and GetCustomerProfile are a store and its read-back. */
  lemma CreatedCustomerIsFound<C>(store: map<string, C>, id: int32, c: C)
    ensures ProfileLookup(store[KeyOf(id) := c], KeyOf(id)) == Ok(c)
  {
    assert |KeyOf(id)| > 0;
  }

  /** Storing a customer changes no answer about a customer with another id,
      whether that answer was a customer or not-found. */
  lemma {:induction false} CreateKeepsOtherProfiles(store: map<string, Customer>, c: Customer, otherId: int32)
    requires otherId != c.id
    ensures ProfileLookup(store[KeyOf(c.id) := c], KeyOf(otherId)) == ProfileLookup(store, KeyOf(otherId))
  {
    CreateKeepsOtherIds(store, c, otherId);
  }

  /** The customer-creation round trip of the feature tests: a customer whose
      name and address pass is stored, in a fresh repository or a filled one,
      and its profile is then found under the text of its id; the profile
      answer for any other id is the one given before the creation. */
  method CreateThenGetProfile(service: CustomerService, c: Customer, otherId: int32)
    returns (created: Result<Customer>, profile: Result<Customer>, other: Result<Customer>)
    requires PassesChecks(c.name, c.email)
    requires otherId != c.id
    modifies service.repository
    ensures created == Ok(c) && profile == Ok(c)
    ensures other == ProfileLookup(old(service.repository.customers), KeyOf(otherId))
  {
    ghost var before := service.repository.customers;
    created := service.Create(c);
    CreatedCustomerIsFound(before, c.id, c);
    profile := service.GetCustomerProfile(KeyOf(c.id));
    CreateKeepsOtherProfiles(before, c, otherId);
    other := service.GetCustomerProfile(KeyOf(otherId));
  }

  /** The feature test's own run: a fresh repository, one valid customer
      created, and its profile fetched by the text of its id. */
  method FreshRepositoryRoundTrip(c: Customer) returns (created: Result<Customer>, profile: Result<Customer>)
    requires PassesChecks(c.name, c.email)
    ensures created == Ok(c) && profile == Ok(c)
  {
    var repo := new CustomerRepository();
    var service := new CustomerService(repo);
    created := service.Create(c);
    CreatedCustomerIsFound(map[], c.id, c);
    profile := service.GetCustomerProfile(KeyOf(c.id));
  }

  /** A customer refused by the checks leaves every profile answer as it was. */
  method RejectedCreateChangesNoProfile(service: CustomerService, c: Customer, userId: string)
    returns (created: Result<Customer>, before: Result<Customer>, after: Result<Customer>)
    requires !PassesChecks(c.name, c.email)
    modifies service.repository
    ensures created == Throw(InvalidOperation(InvalidCustomerMessage))
    ensures before == after
  {
    before := service.GetCustomerProfile(userId);
    created := service.Create(c);
    after := service.GetCustomerProfile(userId);
  }
}
