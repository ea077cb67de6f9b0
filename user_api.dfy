/**
 * Sign-in against an in-memory list of users. The list is a parameter; the
 * asynchronous wrapping of the result is not modelled, and a thrown error is
 * a `Failure`.
 */
module UserApi {
  import opened Wrappers
  import opened Types

  const InvalidCredentialsError: string := "Invalid username or password"

  /**
   * The search predicate `user.email === email && password`: the password
   * only has to be truthy, that is non-empty; its content is never compared.
   */
  predicate Matches(u: User, email: string, password: string) {
    u.email == email && password != ""
  }

  /** `find`: the index of the first user matching, or `|users|` when none does. */
  function FindFirst(users: seq<User>, email: string, password: string): (i: nat)
    ensures i <= |users|
    ensures i < |users| ==> Matches(users[i], email, password)
    ensures forall j :: 0 <= j < i ==> !Matches(users[j], email, password)
  {
    if users == [] then 0
    else if Matches(users[0], email, password) then 0
    else FindFirst(users[1..], email, password) + 1
  }

  /** Signs in: the first user with that email, as stored, provided the password is not empty. */
  function Login(users: seq<User>, email: string, password: string): (r: Result<User, string>)
    ensures r.Failure? ==> r.error == InvalidCredentialsError
    ensures password == "" ==> r.Failure?
    ensures r.Success? <==> password != "" && exists k :: 0 <= k < |users| && users[k].email == email
    ensures r.Success? ==>
      && r.value.email == email
      && exists k :: 0 <= k < |users| && users[k] == r.value && forall j :: 0 <= j < k ==> users[j].email != email
  {
    var i := FindFirst(users, email, password);
    if i < |users| then Success(users[i]) else Failure(InvalidCredentialsError)
  }

  /** Any two non-empty passwords give the same outcome. */
  lemma {:induction false} PasswordContentIgnored(users: seq<User>, email: string, p1: string, p2: string)
    requires p1 != "" && p2 != ""
    ensures FindFirst(users, email, p1) == FindFirst(users, email, p2)
    ensures Login(users, email, p1) == Login(users, email, p2)
  {
    if users != [] {
      PasswordContentIgnored(users[1..], email, p1, p2);
    }
  }
}
