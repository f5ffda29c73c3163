/** Customer.java: a customer is identified by an email address, checked
    against a pattern when the customer is created. The pattern itself (a
    regular expression) is not modelled; it is passed in as a predicate. */
module Customers {
  import opened Java

  datatype Customer = Customer(firstName: string, lastName: string, email: string)

  /** `new Customer(firstName, lastName, email)`: throws when the email does
      not match the pattern. */
  function NewCustomer(firstName: string, lastName: string, email: string, emailMatches: string -> bool): (r: Outcome<Customer>)
    ensures r.Return? <==> emailMatches(email)
    ensures r.Return? ==> r.value.firstName == firstName && r.value.lastName == lastName && r.value.email == email
    ensures r.Throw? ==> r.exception == IllegalArgumentException("Email is invalid format!")
  {
    if emailMatches(email) then Return(Customer(firstName, lastName, email))
    else Throw(IllegalArgumentException("Email is invalid format!"))
  }

  /** `Customer.equals(o)` where `o` is a customer reference: null is never
      equal, otherwise the emails decide. */
  function CustomerEquals(self: Customer, o: Nullable<Customer>): bool {
    match o
    case Null => false
    case Value(other) => self.email == other.email
  }

  /** A customer is identified by its email: two customers are equal
      exactly when their emails are, whatever their names, and no customer
      equals null. The relation is reflexive and symmetric. */
  lemma CustomerEqualityIsByEmail(a: Customer, b: Customer)
    ensures CustomerEquals(a, Value(b)) <==> a.email == b.email
    ensures CustomerEquals(a, Value(a))
    ensures CustomerEquals(a, Value(b)) == CustomerEquals(b, Value(a))
    ensures !CustomerEquals(a, Null)
  {
  }
}
