/** The in-memory credential store, and resolving a stored OAuth credential with it. */
module CredentialStore {
  import opened Wrappers

  /** Expiry is in Unix milliseconds. */
  datatype Credential = ApiKey(key: string) | OAuth(access: string, refresh: string, expires: int)

  type OAuthCredential = c: Credential | c.OAuth? witness OAuth("", "", 0)

  datatype Outcome<+T> = Ok(value: T) | Failed(error: string)

  /** What fn of Modify decides: keep the credential, replace it, or fail. */
  type Update = Option<Credential> -> Outcome<Option<Credential>>

  class Lock {
    var held: bool

    constructor ()
      ensures !held
    {
      held := false;
    }
  }

  class InMemoryCredentialStore {
    var credentials: map<string, Credential>
    var locks: map<string, Lock>

    /** Each provider has a lock of its own, and none is held between calls. */
    ghost predicate Valid()
      reads this, locks.Values
    {
      && (forall a, b | a in locks && b in locks && locks[a] == locks[b] :: a == b)
      && (forall a | a in locks :: !locks[a].held)
    }

    constructor ()
      ensures Valid() && credentials == map[] && locks == map[]
    {
      credentials, locks := map[], map[];
    }

    method ProviderLock(id: string) returns (lock: Lock)
      requires Valid()
      modifies this`locks
      ensures Valid() && id in locks && locks[id] == lock
      ensures if id in old(locks) then locks == old(locks) else fresh(lock) && locks == old(locks)[id := lock]
    {
      if id in locks {
        return locks[id];
      }
      lock := new Lock();
      locks := locks[id := lock];
    }

    method Read(id: string) returns (r: Option<Credential>)
      ensures if id in credentials then r == Some(credentials[id]) else r == None
    {
      r := if id in credentials then Some(credentials[id]) else None;
    }

    method Modify(id: string, fn: Update) returns (r: Outcome<Option<Credential>>)
      requires Valid()
      modifies this, locks.Values
      ensures Valid() && locks.Keys == old(locks.Keys) + {id} && fresh(locks.Values - old(locks.Values))
      ensures var current := if id in old(credentials) then Some(old(credentials)[id]) else None;
              match fn(current)
              case Failed(e) => r == Failed(e) && credentials == old(credentials)
              case Ok(None) => r == Ok(current) && credentials == old(credentials)
              case Ok(Some(next)) => r == Ok(Some(next)) && credentials == old(credentials)[id := next]
    {
      var lock := ProviderLock(id);
      lock.held := true;
      var current := Read(id);
      var next := fn(current);
      match next {
        case Failed(e) => r := Failed(e);
        case Ok(None) => r := Ok(current);
        case Ok(Some(replacement)) =>
          credentials := credentials[id := replacement];
          r := Ok(Some(replacement));
      }
      lock.held := false;
    }

    method Delete(id: string)
      requires Valid()
      modifies this, locks.Values
      ensures Valid() && locks.Keys == old(locks.Keys) + {id} && fresh(locks.Values - old(locks.Values))
      ensures credentials == old(credentials) - {id}
    {
      var lock := ProviderLock(id);
      lock.held := true;
      credentials := credentials - {id};
      lock.held := false;
    }
  }

  // ----- Resolving ------------------------------------------------------------------------

  /** A provider's OAuth functions, with auth in serialized form, and the two readings of the clock. */
  datatype Refresher = Refresher(refresh: OAuthCredential -> Outcome<OAuthCredential>, toAuth: OAuthCredential -> Outcome<string>,
                                 now: int, nowUnderLock: int)

  /** What the caller of Modify decides under the lock. */
  function RefreshIfExpired(r: Refresher): Update {
    (current: Option<Credential>) =>
      if current.None? || !current.value.OAuth? || r.nowUnderLock < current.value.expires then Ok(None)
      else match r.refresh(current.value)
        case Ok(refreshed) => Ok(Some(refreshed))
        case Failed(e) => Failed(e)
  }

  function Derived(r: Refresher, c: OAuthCredential): Outcome<Option<string>> {
    match r.toAuth(c)
    case Ok(auth) => Ok(Some(auth))
    case Failed(e) => Failed(e)
  }

  /** toAuth's answer for a credential, as the call passes it on. */
  predicate Passes(auth: Outcome<Option<string>>, answer: Outcome<string>) {
    match answer
    case Ok(text) => auth == Ok(Some(text))
    case Failed(e) => auth == Failed(e)
  }

  /**
   * A credential that is unexpired is used as it is. For an expired one, what
   * the store then holds decides: nothing, or no OAuth credential, gives no auth;
   * one that another caller has refreshed is used; one that is expired under the
   * lock too is refreshed, and the refreshed credential is stored and used, or
   * the failure is passed on and the store left alone.
   */
  method ResolveStoredOAuth(store: InMemoryCredentialStore, id: string, r: Refresher, stored: OAuthCredential)
      returns (auth: Outcome<Option<string>>)
    requires store.Valid()
    modifies store, store.locks.Values
    ensures store.Valid()
    ensures r.now < stored.expires ==> Passes(auth, r.toAuth(stored)) && store.credentials == old(store.credentials)
    ensures r.now >= stored.expires ==>
              if id !in old(store.credentials) || old(store.credentials)[id].ApiKey? then
                auth == Ok(None) && store.credentials == old(store.credentials)
              else
                var current := old(store.credentials)[id];
                if r.nowUnderLock < current.expires then
                  Passes(auth, r.toAuth(current)) && store.credentials == old(store.credentials)
                else match r.refresh(current)
                  case Ok(refreshed) =>
                    Passes(auth, r.toAuth(refreshed)) && store.credentials == old(store.credentials)[id := refreshed]
                  case Failed(e) =>
                    auth == Failed(e) && store.credentials == old(store.credentials)
  {
    var credential := stored;
    if r.now >= stored.expires {
      var post := store.Modify(id, RefreshIfExpired(r));
      match post {
        case Failed(e) => return Failed(e);
        case Ok(c) =>
          if c.None? || !c.value.OAuth? {
            return Ok(None);
          }
          credential := c.value;
      }
    }
    auth := Derived(r, credential);
  }
}
