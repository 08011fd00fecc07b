/** CustomerService: the customer table. E-mail addresses are stored trimmed and
    lower-cased, and no two customers share one, ignoring case. */
module CustomerTable {
  import opened Common
  import opened Entities
  import opened Repositories

  /** The body of a create or update request; the name and e-mail are required. */
  datatype CustomerRequest = CustomerRequest(
    fullName: string,
    email: string,
    phone: Option<string>,
    customerType: CustomerType)

  const CustomerNotFound := NotFound("customer")
  const UnknownEmail := NotFound("customer not registered")
  const DuplicateEmail := Conflict("a customer already exists with that email")

  /** `sanitizeEmail`: trimmed, then lower-cased. */
  function SanitizeEmail(email: string): (r: string)
    ensures |r| <= |email|
    ensures r == [] || (!IsTrimmed(r[0]) && !IsTrimmed(r[|r| - 1]))
    ensures ToLower(r) == r
    ensures SameEmailIgnoringCase(r, Trim(email))
  {
    ToLowerIdempotent(Trim(email));
    ToLower(Trim(email))
  }

  /** Sanitizing twice is sanitizing once. */
  lemma SanitizeEmailIdempotent(email: string)
    ensures SanitizeEmail(SanitizeEmail(email)) == SanitizeEmail(email)
  {
    var once := SanitizeEmail(email);
    TrimOfTrimmed(once);
  }

  /** A stored e-mail is found by any spelling of it that differs only in letter case
      and in surrounding blanks. */
  lemma LookupIgnoresCaseAndPadding(rows: map<Id, Customer>, id: Id, email: string)
    requires id in rows && ToLower(rows[id].email) == ToLower(Trim(email))
    ensures ExistsByEmailIgnoreCase(rows, SanitizeEmail(email))
  {
    ToLowerIdempotent(Trim(email));
    assert SameEmailIgnoringCase(rows[id].email, SanitizeEmail(email));
  }

  /** `applyChanges`: the name trimmed, the e-mail sanitized, a blank phone dropped. */
  function ApplyCustomerChanges(customer: Customer, request: CustomerRequest): (r: Customer)
    ensures r.id == customer.id && r.customerType == request.customerType
    ensures r.fullName == Some(Trim(request.fullName))
    ensures r.email == SanitizeEmail(request.email)
    ensures r.phone == NormalizeOptional(request.phone)
  {
    customer.(fullName := NormalizeRequired(Some(request.fullName)),
              email := SanitizeEmail(request.email),
              phone := NormalizeOptional(request.phone),
              customerType := request.customerType)
  }

  /** No two customers share an e-mail address, ignoring case. */
  ghost predicate UniqueEmails(rows: map<Id, Customer>) {
    forall a, b | a in rows && b in rows && a != b :: !SameEmailIgnoringCase(rows[a].email, rows[b].email)
  }

  /** Every stored e-mail address is in sanitized form. */
  ghost predicate SanitizedEmails(rows: map<Id, Customer>) {
    forall id | id in rows :: SanitizeEmail(rows[id].email) == rows[id].email
  }

  /** Saving a customer whose e-mail no other customer holds keeps e-mails unique and sanitized. */
  lemma SaveKeepsEmailsUnique(rows: map<Id, Customer>, customer: Customer)
    requires UniqueEmails(rows) && SanitizedEmails(rows)
    requires customer.email == SanitizeEmail(customer.email)
    requires forall id | id in rows && id != customer.id :: !SameEmailIgnoringCase(rows[id].email, customer.email)
    ensures UniqueEmails(rows[customer.id := customer]) && SanitizedEmails(rows[customer.id := customer])
  {
    SaveKeepsUnique(rows, customer);
    SaveKeepsSanitized(rows, customer);
  }

  lemma SaveKeepsUnique(rows: map<Id, Customer>, customer: Customer)
    requires UniqueEmails(rows)
    requires forall id | id in rows && id != customer.id :: !SameEmailIgnoringCase(rows[id].email, customer.email)
    ensures UniqueEmails(rows[customer.id := customer])
  {
    var saved := rows[customer.id := customer];
    forall a, b | a in saved && b in saved && a != b
      ensures !SameEmailIgnoringCase(saved[a].email, saved[b].email)
    {
      if a == customer.id {
        assert !SameEmailIgnoringCase(rows[b].email, customer.email);
      } else if b == customer.id {
        assert !SameEmailIgnoringCase(rows[a].email, customer.email);
      } else {
        assert saved[a] == rows[a] && saved[b] == rows[b];
      }
    }
  }

  lemma SaveKeepsSanitized(rows: map<Id, Customer>, customer: Customer)
    requires SanitizedEmails(rows)
    requires customer.email == SanitizeEmail(customer.email)
    ensures SanitizedEmails(rows[customer.id := customer])
  {
  }

  class CustomerService {
    const customers: CustomerRepository

    ghost predicate Valid()
      reads this, customers
    {
      customers.Valid()
    }

    constructor (customers: CustomerRepository)
      ensures this.customers == customers
    {
      this.customers := customers;
    }

    /** `findByEmail`: the address is sanitized before the case-insensitive lookup. */
    method FindByEmail(email: string) returns (result: Result<Customer>)
      requires Valid()
      ensures !ExistsByEmailIgnoreCase(customers.rows, SanitizeEmail(email)) <==> result == Failure(UnknownEmail)
      ensures result.Success? ==>
        && result.value.id in customers.rows && customers.rows[result.value.id] == result.value
        && SameEmailIgnoringCase(result.value.email, Trim(email))
    {
      var found := customers.FindByEmailIgnoreCase(SanitizeEmail(email));
      if found.None? {
        return Failure(UnknownEmail);
      }
      ToLowerIdempotent(Trim(email));
      result := Success(found.value);
    }

    /** `create`: refused when a customer already holds the e-mail, ignoring case. */
    method Create(request: CustomerRequest) returns (result: Result<Customer>)
      requires Valid()
      modifies customers
      ensures Valid()
      ensures ExistsByEmailIgnoreCase(old(customers.rows), SanitizeEmail(request.email))
              <==> result == Failure(DuplicateEmail)
      ensures !ExistsByEmailIgnoreCase(old(customers.rows), SanitizeEmail(request.email)) ==> result.Success?
      ensures result.Failure? ==> customers.rows == old(customers.rows)
      ensures result.Success? ==>
        && result.value.id !in old(customers.rows)
        && result.value == ApplyCustomerChanges(result.value, request)
        && customers.rows == old(customers.rows)[result.value.id := result.value]
      ensures UniqueEmails(old(customers.rows)) && SanitizedEmails(old(customers.rows)) ==>
              UniqueEmails(customers.rows) && SanitizedEmails(customers.rows)
    {
      var email := SanitizeEmail(request.email);
      if ExistsByEmailIgnoreCase(customers.rows, email) {
        return Failure(DuplicateEmail);
      }
      var blank := Customer(0, None, [], None, Buyer);
      ghost var rows0 := customers.rows;
      var saved := customers.Insert(ApplyCustomerChanges(blank, request));
      SanitizeEmailIdempotent(request.email);
      if UniqueEmails(rows0) && SanitizedEmails(rows0) {
        SaveKeepsEmailsUnique(rows0, saved);
      }
      result := Success(saved);
    }

    /** `update`: the customer must exist, and only another customer holding the e-mail
        is a conflict. */
    method Update(id: Id, request: CustomerRequest) returns (result: Result<Customer>)
      requires Valid()
      modifies customers
      ensures Valid()
      ensures id !in old(customers.rows) ==> result == Failure(CustomerNotFound)
      ensures id in old(customers.rows) ==>
        (ExistsByEmailIgnoreCaseAndIdNot(old(customers.rows), SanitizeEmail(request.email), id)
         <==> result == Failure(DuplicateEmail))
      ensures id in old(customers.rows) && !ExistsByEmailIgnoreCaseAndIdNot(old(customers.rows), SanitizeEmail(request.email), id)
              ==> result.Success?
      ensures result.Failure? ==> customers.rows == old(customers.rows)
      ensures result.Success? ==>
        && id in old(customers.rows)
        && result.value == ApplyCustomerChanges(old(customers.rows)[id], request)
        && customers.rows == old(customers.rows)[id := result.value]
      ensures UniqueEmails(old(customers.rows)) && SanitizedEmails(old(customers.rows)) ==>
              UniqueEmails(customers.rows) && SanitizedEmails(customers.rows)
    {
      if id !in customers.rows {
        return Failure(CustomerNotFound);
      }
      var email := SanitizeEmail(request.email);
      if ExistsByEmailIgnoreCaseAndIdNot(customers.rows, email, id) {
        return Failure(DuplicateEmail);
      }
      var updated := ApplyCustomerChanges(customers.rows[id], request);
      ghost var rows0 := customers.rows;
      customers.Update(updated);
      SanitizeEmailIdempotent(request.email);
      if UniqueEmails(rows0) && SanitizedEmails(rows0) {
        SaveKeepsEmailsUnique(rows0, updated);
      }
      result := Success(updated);
    }

    /** `delete`. */
    method Delete(id: Id) returns (r: Outcome)
      requires Valid()
      modifies customers
      ensures Valid()
      ensures id !in old(customers.rows) ==> r == Fail(CustomerNotFound) && customers.rows == old(customers.rows)
      ensures id in old(customers.rows) ==> r.Pass? && customers.rows == old(customers.rows) - {id}
    {
      if id !in customers.rows {
        return Fail(CustomerNotFound);
      }
      customers.Delete(id);
      r := Pass;
    }
  }
}
