/** The in-memory half of the customer repository: a dictionary from the
    decimal text of a customer's id to the customer. */
module Repositories {
  import opened Runtime
  import opened Customers
  import DecimalText

  /** The dictionary key a customer with this id is stored under: never
      empty, and shared with no other id. */
  function KeyOf(id: int32): (key: string)
    ensures key != ""
    ensures forall other: int :: other != id as int ==> DecimalText.IntToString(other) != key
  {
    DecimalText.DistinctKeysFrom(id as int);
    DecimalText.IntToString(id as int)
  }

  class CustomerRepository {
    var customers: map<string, Customer>

    constructor ()
      ensures customers == map[]
    {
      customers := map[];
    }

    /** Stores `customer` under the text of its id, replacing whatever was
        stored under that key and leaving every other key as it was, and
        returns its argument. */
    method Create(customer: Customer) returns (r: Customer)
      modifies this`customers
      ensures customers == old(customers)[KeyOf(customer.id) := customer]
      ensures r == customer
    {
      customers := customers[KeyOf(customer.id) := customer];
      r := customer;
    }

    /** The stored customer, or null when the key is absent; reads only. */
    method GetById(userId: string) returns (r: Customer?)
      ensures userId in customers ==> r == customers[userId]
      ensures userId !in customers ==> r == null
    {
      if userId in customers {
        r := customers[userId];
      } else {
        r := null;
      }
    }
  }

  /** Storing a customer never disturbs the entry of a customer whose id is
      different, because distinct ids have distinct decimal texts. */
  lemma CreateKeepsOtherIds(m: map<string, Customer>, c: Customer, otherId: int32)
    requires otherId != c.id
    ensures KeyOf(otherId) in m ==>
      KeyOf(otherId) in m[KeyOf(c.id) := c] && m[KeyOf(c.id) := c][KeyOf(otherId)] == m[KeyOf(otherId)]
    ensures KeyOf(otherId) !in m ==> KeyOf(otherId) !in m[KeyOf(c.id) := c]
  {
    DecimalText.DistinctIdsDistinctKeys(otherId as int, c.id as int);
  }

  /** A customer created and then looked up by the text of its id is the
      customer that was created, in a fresh repository or a filled one; the
      lookup of any other id answers as it did before the creation. */
  method CreateThenGetById(repo: CustomerRepository, c: Customer, otherId: int32)
    returns (found: Customer?, other: Customer?)
    requires otherId != c.id
    modifies repo
    ensures found == c
    ensures KeyOf(otherId) in old(repo.customers) ==> other == old(repo.customers)[KeyOf(otherId)]
    ensures KeyOf(otherId) !in old(repo.customers) ==> other == null
  {
    var created := repo.Create(c);
    found := repo.GetById(KeyOf(c.id));
    CreateKeepsOtherIds(old(repo.customers), c, otherId);
    other := repo.GetById(KeyOf(otherId));
  }
}
