/** The two fixture users and their hospitals, and what signing them in gives. */
module Fixtures {
  import opened Wrappers
  import opened Types
  import opened UserStore
  import opened UserApi

  const HospitalA: Hospital := Hospital(1, "General Hospital", HospitalConfig(Some(
    HeadersConfig(["productName", "manufacturer", "category", "quantity"], SortSpec("productName", Asc)))))

  const HospitalB: Hospital := Hospital(2, "City Medical Center", HospitalConfig(Some(
    HeadersConfig(["productName", "category", "expiryDate", "quantity", "manufacturer", "unitPrice"],
                  SortSpec("expiryDate", Asc)))))

  const Alice: User := User(1, "Alice Smith", "alice.smith@generalhospital.com", HospitalA)
  const Bob: User := User(2, "Bob Jones", "bob.jones@citymedcenter.org", HospitalB)

  const Users: seq<User> := [Alice, Bob]

  lemma SignInAlice()
    ensures Login(Users, "alice.smith@generalhospital.com", "anyPassword") == Success(Alice)
  {
  }

  lemma SignInBob()
    ensures Login(Users, "bob.jones@citymedcenter.org", "anyPassword") == Success(Bob)
  {
    assert !Matches(Users[0], "bob.jones@citymedcenter.org", "anyPassword");
    assert FindFirst(Users, "bob.jones@citymedcenter.org", "anyPassword") == 1;
  }

  lemma SignInUnknown()
    ensures Login(Users, "not.a.user@hospital.com", "anyPassword") == Failure(InvalidCredentialsError)
  {
    assert !Matches(Users[0], "not.a.user@hospital.com", "anyPassword");
    assert !Matches(Users[1], "not.a.user@hospital.com", "anyPassword");
  }

  lemma SignInEmptyPassword()
    ensures Login(Users, "alice.smith@generalhospital.com", "") == Failure(InvalidCredentialsError)
  {
  }

  lemma BobsSession()
    ensures HospitalIdOf(Some(Bob)) == 2
    ensures InventoryHeadersConfigOf(Some(Bob)).fields
            == ["productName", "category", "expiryDate", "quantity", "manufacturer", "unitPrice"]
    ensures InventoryHeadersConfigOf(Some(Bob)).defaultSort == SortSpec("expiryDate", Asc)
  {
  }
}
