/** The authentication flag of the auth provider: a boolean in memory and
    one key in the browser's string storage, with a hard-coded credential
    check. */
module Auth {

  const StorageKey: string := "isAuthenticated"

  /** The provider's state: `isAuthenticated` and the browser storage. */
  datatype AuthState = AuthState(isAuthenticated: bool, storage: map<string, string>)

  /** The provider's first render: `useState(false)`. */
  function Render(storage: map<string, string>): (a: AuthState)
    ensures !a.isAuthenticated && a.storage == storage
  {
    AuthState(false, storage)
  }

  /** The mount effect: authenticated exactly when the stored flag is the
      string 'true'. */
  function RestoreSession(a: AuthState): (r: AuthState)
    ensures r.isAuthenticated <==> StorageKey in a.storage && a.storage[StorageKey] == "true"
    ensures r.storage == a.storage
  {
    a.(isAuthenticated := StorageKey in a.storage && a.storage[StorageKey] == "true")
  }

  /** Mounting the provider over a storage. */
  function Mount(storage: map<string, string>): (a: AuthState)
    ensures a.isAuthenticated <==> StorageKey in storage && storage[StorageKey] == "true"
    ensures a.storage == storage
  {
    RestoreSession(Render(storage))
  }

  /** How the promise `login` returns settles: it resolves to whether the
      credentials matched, or it rejects because `localStorage.setItem`
      threw (quota exceeded, storage disabled). */
  datatype LoginOutcome = Resolved(success: bool) | Rejected

  datatype LoginResult = LoginResult(state: AuthState, outcome: LoginOutcome)

  /** The hard-coded credential check. */
  predicate ValidCredentials(username: string, password: string)
  {
    username == "admin" && password == "1234"
  }

  /** `login(username, password)`. The flag is set before the storage is
      written, so a `setItem` that throws (`writeOk` false) leaves the
      provider authenticated with the key unwritten and the promise
      rejected. */
  function Login(a: AuthState, username: string, password: string, writeOk: bool): (r: LoginResult)
    ensures r.outcome == Resolved(true) <==> ValidCredentials(username, password) && writeOk
    ensures r.outcome.Rejected? <==> ValidCredentials(username, password) && !writeOk
    ensures r.state.isAuthenticated <==> ValidCredentials(username, password) || a.isAuthenticated
  {
    if username == "admin" && password == "1234" then
      if writeOk then LoginResult(AuthState(true, a.storage[StorageKey := "true"]), Resolved(true))
      else LoginResult(AuthState(true, a.storage), Rejected)
    else
      LoginResult(a, Resolved(false))
  }

  /** `logout()` */
  function Logout(a: AuthState): (r: AuthState)
    ensures !r.isAuthenticated
    ensures StorageKey !in r.storage
    ensures forall k :: k != StorageKey ==> (k in r.storage <==> k in a.storage)
    ensures forall k :: k != StorageKey && k in a.storage ==> r.storage[k] == a.storage[k]
  {
    AuthState(false, a.storage - {StorageKey})
  }

  // ---------------------------------------------------------------------

  /** Before the effect the provider is unauthenticated; after it, it is
      authenticated exactly when the stored flag is 'true', and the
      storage is only read. */
  lemma MountReadsFlag(storage: map<string, string>)
    ensures !Render(storage).isAuthenticated
    ensures Mount(storage).isAuthenticated <==> StorageKey in storage && storage[StorageKey] == "true"
    ensures Mount(storage).storage == storage
  {
  }

  /** A successful login sets the flag and stores 'true'; a rejected one
      sets the flag without storing anything; wrong credentials change
      neither. */
  lemma LoginEffect(a: AuthState, username: string, password: string, writeOk: bool)
    ensures var r := Login(a, username, password, writeOk);
            r.outcome == Resolved(true) ==> r.state == AuthState(true, a.storage[StorageKey := "true"])
    ensures var r := Login(a, username, password, writeOk);
            r.outcome.Rejected? ==> r.state == AuthState(true, a.storage)
    ensures Login(a, username, password, writeOk).outcome == Resolved(false) ==>
              Login(a, username, password, writeOk).state == a
  {
  }

  /** A login that resolved survives a reload and a logout does not. A
      rejected login authenticates this provider only: a reload restores
      whatever the storage held before. A reload over a storage that was
      never written is unauthenticated. */
  lemma ReloadAfterLoginOrLogout(a: AuthState, username: string, password: string, writeOk: bool)
    ensures Login(a, username, password, writeOk).outcome == Resolved(true) ==>
              Mount(Login(a, username, password, writeOk).state.storage).isAuthenticated
    ensures Login(a, username, password, writeOk).outcome.Rejected? ==>
              && Login(a, username, password, writeOk).state.isAuthenticated
              && Mount(Login(a, username, password, writeOk).state.storage) == Mount(a.storage)
    ensures !Mount(Logout(a).storage).isAuthenticated
    ensures !Mount(map[]).isAuthenticated
  {
  }
}
