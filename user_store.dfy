/**
 * The session store: the signed-in user (or nobody), and two values derived
 * from it, the current hospital id and the hospital's inventory header
 * configuration.
 */
module UserStore {
  import opened Wrappers
  import opened Types

  /** The configuration used when nobody is signed in or the hospital has none. */
  const DefaultInventoryHeadersConfig: HeadersConfig :=
    HeadersConfig(["productName", "category", "manufacturer", "quantity"], SortSpec("productName", Asc))

  /**
   * `user?.hospital.id || 0`: the `||` also turns an id of 0 into 0, so the
   * result is the hospital's id whenever there is a user.
   */
  function HospitalIdOf(user: Option<User>): (id: int)
    ensures user.None? ==> id == 0
    ensures user.Some? ==> id == user.value.hospital.id
  {
    match user
    case None => 0
    case Some(u) => if u.hospital.id != 0 then u.hospital.id else 0
  }

  /**
   * `user?.hospital.config.inventoryHeaders || default`: the hospital's own
   * configuration, unmodified, when there is a user whose hospital has one;
   * the default otherwise.
   */
  function InventoryHeadersConfigOf(user: Option<User>): (c: HeadersConfig)
    ensures user.None? ==> c == DefaultInventoryHeadersConfig
    ensures user.Some? ==>
      c == if user.value.hospital.config.inventoryHeaders.Some?
           then user.value.hospital.config.inventoryHeaders.value
           else DefaultInventoryHeadersConfig
  {
    if user.Some? then
      match user.value.hospital.config.inventoryHeaders
      case Some(h) => h
      case None => DefaultInventoryHeadersConfig
    else DefaultInventoryHeadersConfig
  }

  /**
   * The store. Its only state is `user`; the derived values are functions of
   * it alone, so they follow every change of it.
   */
  class Store {
    var user: Option<User>

    constructor ()
      ensures user == None
      ensures HospitalId() == 0 && InventoryHeadersConfig() == DefaultInventoryHeadersConfig
    {
      user := None;
    }

    /** The store's `hospitalId` value: `HospitalIdOf` applied to the current user. */
    function HospitalId(): int
      reads this
    {
      HospitalIdOf(user)
    }

    /** The store's `inventoryHeadersConfig` value: `InventoryHeadersConfigOf` applied to the current user. */
    function InventoryHeadersConfig(): HeadersConfig
      reads this
    {
      InventoryHeadersConfigOf(user)
    }

    method SetUser(userData: User)
      modifies this
      ensures user == Some(userData)
      ensures HospitalId() == userData.hospital.id
      ensures InventoryHeadersConfig() == InventoryHeadersConfigOf(Some(userData))
    {
      user := Some(userData);
    }

    method ClearUser()
      modifies this
      ensures user == None
      ensures HospitalId() == 0 && InventoryHeadersConfig() == DefaultInventoryHeadersConfig
    {
      user := None;
    }
  }

  /**
   * A session: a fresh store, a sign-in and a sign-out, reading the hospital id
   * after each step.
   */
  method SignInAndOut(u: User) returns (before: int, during: int, after: int, who: Option<User>)
    ensures before == 0 && during == u.hospital.id && after == 0
    ensures who == None
  {
    var store := new Store();
    before := store.HospitalId();
    store.SetUser(u);
    during := store.HospitalId();
    store.ClearUser();
    after := store.HospitalId();
    who := store.user;
  }
}
