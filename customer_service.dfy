/** CustomerServiceImpl.java: the customer directory, a map from email
    address to customer. */
module CustomerServices {
  import opened Java
  import opened Customers
  import MapFacts

  /** Every customer is stored under its own email, which matched the
      pattern when the customer was created. */
  ghost predicate KeyedByEmail(customers: map<string, Customer>, emailMatches: string -> bool) {
    forall e :: e in customers ==> customers[e].email == e && emailMatches(e)
  }

  class CustomerService {
    var customers: map<string, Customer>
    /** The email pattern of Customer.java, as a predicate. */
    const emailMatches: string -> bool

    ghost predicate Valid()
      reads this
    {
      KeyedByEmail(customers, emailMatches)
    }

    constructor (emailMatches: string -> bool)
      ensures Valid() && customers == map[] && this.emailMatches == emailMatches
    {
      customers := map[];
      this.emailMatches := emailMatches;
    }

    /** `addCustomer(email, firstName, lastName)`: the customer is built
        first, so an invalid email fails before the duplicate test; an email
        already registered fails next. Either failure leaves the directory
        unchanged; otherwise the new customer is stored under its email. */
    method AddCustomer(email: string, firstName: string, lastName: string) returns (result: Outcome<()>)
      requires Valid()
      modifies this
      ensures Valid()
      ensures result.Return? <==> emailMatches(email) && email !in old(customers)
      ensures !emailMatches(email) ==> result == Throw(IllegalArgumentException("Email is invalid format!"))
      ensures emailMatches(email) && email in old(customers) ==>
        result == Throw(IllegalArgumentException("Customer with this email is already registered."))
      ensures result.Throw? ==> customers == old(customers)
      ensures result.Return? ==> customers == old(customers)[email := Customer(firstName, lastName, email)]
      ensures result.Return? ==> GetCustomer(email) == Value(Customer(firstName, lastName, email))
    {
      var newCustomer := NewCustomer(firstName, lastName, email, emailMatches);
      if newCustomer.Throw? {
        return Throw(newCustomer.exception);
      }
      if email in customers {
        return Throw(IllegalArgumentException("Customer with this email is already registered."));
      }
      customers := customers[email := newCustomer.value];
      return Return(());
    }

    /** `getCustomer(customerEmail)`: the registered customer, or null. */
    function GetCustomer(customerEmail: string): (r: Nullable<Customer>)
      reads this
      ensures r.Value? <==> customerEmail in customers
      ensures r.Value? ==> r.value == customers[customerEmail]
      ensures r.Value? && Valid() ==> r.value.email == customerEmail
    {
      if customerEmail in customers then Value(customers[customerEmail]) else Null
    }

    /** `getAllCustomers()`: the stored customers, one per registered email. */
    function GetAllCustomers(): (r: set<Customer>)
      reads this
      requires Valid()
      ensures forall c :: c in r <==> GetCustomer(c.email) == Value(c)
      ensures |r| == |customers|
    {
      MapFacts.KeyedValuesCount(customers, (c: Customer) => c.email);
      customers.Values
    }
  }
}
