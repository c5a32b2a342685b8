/**
 * The session store, `AuthProvider`: the current user, mirrored to one local-storage slot,
 * with an inactivity timeout that logs the user out. Local storage is a map from keys to raw
 * strings; JSON serialisation is a pair of functions supplied by the caller (a `Codec`); the
 * timeout is a deadline on a discrete millisecond clock that `Elapse` events advance.
 */
module Session {
  import opened Wrappers
  import opened Text

  /** The authenticated identity as the backend returns it. */
  datatype User = User(
    id: int,
    name: string,
    email: string,
    phone: string,
    companyName: string,
    position: string,
    apiKey: string,
    isActive: bool)

  const StorageKey: string := "skanjo_user"
  const TimeoutMinutes: nat := 30
  /** `SESSION_TIMEOUT_MINUTES * 60 * 1000`. */
  const TimeoutMs: nat := TimeoutMinutes * 60 * 1000
  const LoginPath: string := "/login"

  /** What `JSON.parse` yields on a stored entry: a user object, `null`, or a thrown SyntaxError. */
  datatype Parsed = Malformed | Value(user: Option<User>)

  /** `JSON.stringify` and `JSON.parse`, restricted to users. */
  datatype Codec = Codec(serialise: User -> string, parse: string -> Parsed)

  /** The provider's state: the `user` hook, the browser's local storage, the deadline of the
      armed timeout (if any), the clock, and the last navigation requested. */
  datatype Store = Store(
    user: Option<User>,
    storage: map<string, string>,
    deadline: Option<nat>,
    now: nat,
    navigatedTo: Option<string>)

  /** `!!user`. */
  predicate IsAuthenticated(s: Store) {
    s.user.Some?
  }

  /** The first render, before any effect has run: no user, no timer. */
  function Initial(storage: map<string, string>, now: nat): (s: Store)
    ensures !IsAuthenticated(s) && s.deadline.None? && s.storage == storage
  {
    Store(None, storage, None, now, None)
  }

  /** The timeout effect, run after every change of `user`: the previous timer is cleared and,
      if a user is present, a fresh one is armed for the full timeout. */
  function Rearm(s: Store): (r: Store)
    ensures r.user == s.user && r.storage == s.storage && r.now == s.now && r.navigatedTo == s.navigatedTo
    ensures r.user.Some? <==> r.deadline.Some?
    ensures r.deadline.Some? ==> r.deadline.value == s.now + TimeoutMs
  {
    s.(deadline := if s.user.Some? then Some(s.now + TimeoutMs) else None)
  }

  /** Mounting: the restore effect adopts the stored entry when it exists and is a non-empty
      string (`JSON.parse` throwing on a malformed entry is not caught, so mounting fails);
      the timeout effect then arms a timer if a user was adopted. Nothing is written. */
  function Mount(storage: map<string, string>, now: nat, codec: Codec): (r: Result<Store, string>)
    ensures (StorageKey !in storage || storage[StorageKey] == "") ==> r == Success(Initial(storage, now))
    ensures r.Failure? <==>
      StorageKey in storage && storage[StorageKey] != "" && codec.parse(storage[StorageKey]).Malformed?
    ensures r.Success? ==> r.value.storage == storage && r.value.now == now && r.value.navigatedTo.None?
    ensures r.Success? && r.value.user.Some? ==>
      StorageKey in storage && codec.parse(storage[StorageKey]) == Value(r.value.user)
    ensures r.Success? ==> Inv(r.value)
    ensures StorageKey in storage && storage[StorageKey] != "" && codec.parse(storage[StorageKey]).Value? ==>
      && r.Success?
      && r.value.user == codec.parse(storage[StorageKey]).user
      && (r.value.user.Some? ==> r.value.deadline == Some(now + TimeoutMs))
  {
    if StorageKey in storage && Truthy(storage[StorageKey]) then
      match codec.parse(storage[StorageKey])
      case Malformed => Failure("SyntaxError")
      case Value(u) => Success(Rearm(Initial(storage, now).(user := u)))
    else Success(Initial(storage, now))
  }

  /** `login(u)`: sets the user, writes it under the one storage key and (through the effect)
      re-arms the timeout. It does not navigate. */
  function Login(s: Store, codec: Codec, u: User): (r: Store)
    ensures IsAuthenticated(r) && r.user == Some(u)
    ensures r.storage == s.storage[StorageKey := codec.serialise(u)]
    ensures r.deadline == Some(s.now + TimeoutMs)
    ensures r.now == s.now && r.navigatedTo == s.navigatedTo
  {
    Rearm(s.(user := Some(u), storage := s.storage[StorageKey := codec.serialise(u)]))
  }

  /** `logout()`: clears the user, removes only the storage key, cancels the timeout (through
      the effect) and navigates to the login page. */
  function Logout(s: Store): (r: Store)
    ensures !IsAuthenticated(r) && r.deadline.None?
    ensures StorageKey !in r.storage
    ensures forall k :: k != StorageKey ==> (k in r.storage <==> k in s.storage)
    ensures forall k :: k in r.storage ==> r.storage[k] == s.storage[k]
    ensures r.navigatedTo == Some(LoginPath) && r.now == s.now
  {
    Rearm(s.(user := None, storage := s.storage - {StorageKey}, navigatedTo := Some(LoginPath)))
  }

  /** `ms` milliseconds pass. If the armed timeout falls due on the way, it fires `logout` at its
      deadline. */
  function Elapse(s: Store, ms: nat): (r: Store)
    ensures r.now == s.now + ms
    ensures s.deadline.Some? && s.deadline.value <= s.now + ms ==>
      && !IsAuthenticated(r) && r.navigatedTo == Some(LoginPath) && r.deadline.None?
      && StorageKey !in r.storage
      && (forall k :: k != StorageKey ==> (k in r.storage <==> k in s.storage))
      && (forall k :: k in r.storage ==> r.storage[k] == s.storage[k])
    ensures !(s.deadline.Some? && s.deadline.value <= s.now + ms) ==> r == s.(now := s.now + ms)
  {
    if s.deadline.Some? && s.deadline.value <= s.now + ms then
      Logout(s.(now := s.deadline.value)).(now := s.now + ms)
    else s.(now := s.now + ms)
  }

  /** What every state after mounting satisfies: a timer is armed exactly while a user is
      present, it is due within the timeout, and a present user is in storage. */
  predicate Inv(s: Store) {
    && (s.user.Some? <==> s.deadline.Some?)
    && (s.deadline.Some? ==> s.now < s.deadline.value <= s.now + TimeoutMs)
    && (s.user.Some? ==> StorageKey in s.storage)
  }

  datatype Event = LoginEvent(u: User) | LogoutEvent | ElapseEvent(ms: nat)

  function Apply(s: Store, codec: Codec, e: Event): Store {
    match e
    case LoginEvent(u) => Login(s, codec, u)
    case LogoutEvent => Logout(s)
    case ElapseEvent(ms) => Elapse(s, ms)
  }

  function Run(s: Store, codec: Codec, evs: seq<Event>): Store
    decreases |evs|
  {
    if |evs| == 0 then s else Apply(Run(s, codec, evs[..|evs| - 1]), codec, evs[|evs| - 1])
  }

  /** Every event keeps the invariant. */
  lemma ApplyKeepsInv(s: Store, codec: Codec, e: Event)
    requires Inv(s)
    ensures Inv(Apply(s, codec, e))
  {
  }

  /** Whatever happens after mounting, the timer is armed exactly while someone is logged in. */
  lemma {:induction false} RunKeepsInv(s: Store, codec: Codec, evs: seq<Event>)
    requires Inv(s)
    ensures Inv(Run(s, codec, evs))
    ensures IsAuthenticated(Run(s, codec, evs)) <==> Run(s, codec, evs).deadline.Some?
    decreases |evs|
  {
    if |evs| > 0 {
      RunKeepsInv(s, codec, evs[..|evs| - 1]);
      ApplyKeepsInv(Run(s, codec, evs[..|evs| - 1]), codec, evs[|evs| - 1]);
    }
  }

  /** A login survives a reload: mounting a fresh provider over the storage the login wrote
      restores the same user, provided serialising and parsing round-trip and the serialised
      form is non-empty (`JSON.stringify` of an object always is). */
  lemma LoginThenRestore(s: Store, codec: Codec, u: User, later: nat)
    requires codec.parse(codec.serialise(u)) == Value(Some(u))
    requires codec.serialise(u) != ""
    ensures Mount(Login(s, codec, u).storage, later, codec).Success?
    ensures Mount(Login(s, codec, u).storage, later, codec).value.user == Some(u)
  {
  }

  /** After a logout nothing is restored on the next mount. */
  lemma LogoutThenRestore(s: Store, codec: Codec, later: nat)
    ensures Mount(Logout(s).storage, later, codec) == Success(Initial(Logout(s).storage, later))
  {
  }

  /** A user left alone for the full timeout is logged out and sent to the login page, and a
      reload then restores nobody; one millisecond earlier they are still logged in. */
  lemma ExpiryAfterTimeout(s: Store, codec: Codec, u: User)
    ensures IsAuthenticated(Elapse(Login(s, codec, u), TimeoutMs - 1))
    ensures !IsAuthenticated(Elapse(Login(s, codec, u), TimeoutMs))
    ensures Elapse(Login(s, codec, u), TimeoutMs).navigatedTo == Some(LoginPath)
    ensures Elapse(Login(s, codec, u), TimeoutMs).deadline.None?
    ensures Mount(Elapse(Login(s, codec, u), TimeoutMs).storage, s.now + TimeoutMs, codec).Success?
    ensures Mount(Elapse(Login(s, codec, u), TimeoutMs).storage, s.now + TimeoutMs, codec).value.user.None?
  {
  }

  /** A second login restarts the timeout: the first timer no longer fires, and expiry is
      measured from the second login. */
  lemma SecondLoginRestartsTimeout(s: Store, codec: Codec, u1: User, u2: User, gap: nat)
    requires 0 < gap < TimeoutMs
    ensures IsAuthenticated(Elapse(Login(Elapse(Login(s, codec, u1), gap), codec, u2), TimeoutMs - 1))
    ensures !IsAuthenticated(Elapse(Login(Elapse(Login(s, codec, u1), gap), codec, u2), TimeoutMs))
  {
  }
}
