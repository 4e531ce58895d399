/**
 * shared.js: the in-memory store `DB` with its three parts (accounts by email,
 * the session email, attendee lists by event id), the operations on it and
 * the write-through persistence to one localStorage key.
 *
 * Each operation is first given as a function from the old store to the new
 * one (the `…Step` functions and `Restored`), with the properties the app
 * relies on proved about those functions; the class `Store` then holds the
 * three parts as fields and its methods, which mirror the source's
 * statements, are proved to update the fields as the functions say.
 */
module Shared {
  import opened Wrappers
  import opened Digest
  import opened Accounts
  import opened Ledger

  /** The value of the store: `{ users, session, attendees }`. */
  datatype DB = DB(users: map<string, Account>, session: Option<string>, attendees: map<string, seq<string>>)

  /** JavaScript truthiness of the session: null and "" both mean logged out. */
  predicate Truthy(s: Option<string>)
  {
    s.Some? && s.value != ""
  }

  /**
   * What the operations keep true of a store: records sit under their own email,
   * a session names an account, lists have no duplicates and name accounts.
   */
  ghost predicate Valid(db: DB)
  {
    && KeyedByEmail(db.users)
    && db.session != Some("")
    && (db.session.Some? ==> db.session.value in db.users)
    && (forall id :: id in db.attendees ==> NoDuplicates(db.attendees[id]))
    && (forall id, e :: id in db.attendees && e in db.attendees[id] ==> e in db.users)
  }

  /** `db` has every account and every event list that `base` has (operations never delete keys). */
  predicate Extends(db: DB, base: DB)
  {
    base.users.Keys <= db.users.Keys && base.attendees.Keys <= db.attendees.Keys
  }

  // ---------------------------------------------------------------- seeding

  const DowntownCrawl: string := "downtown-crawl"
  const BreweryTour: string := "brewery-tour"

  const EmptyDB: DB := DB(map[], None, map[])

  /** `seedDemos` run over the store it finds: the demo accounts and two demo lists. */
  function Seeded(db: DB): (r: DB)
    ensures r.session == db.session && Extends(r, db)
  {
    db.(users := StoreAll(db.users, Demos),
        attendees := db.attendees[DowntownCrawl := [SarahEmail, MikeEmail, LauraEmail]][BreweryTour := [SarahEmail, MikeEmail]])
  }

  /** The store after seeding and before `restore()`. */
  function SeedState(): DB
  {
    Seeded(EmptyDB)
  }

  lemma SeedStateValid()
    ensures Valid(SeedState())
    ensures SeedState().users.Keys == {SarahEmail, MikeEmail, LauraEmail}
    ensures SeedState().attendees.Keys == {DowntownCrawl, BreweryTour}
  {
    SeedUsers();
    SeedLists();
  }

  lemma SeedUsers()
    ensures KeyedByEmail(SeedState().users)
    ensures SeedState().users.Keys == {SarahEmail, MikeEmail, LauraEmail}
  {
    DemoUsers();
  }

  lemma SeedLists()
    ensures SeedState().attendees == map[DowntownCrawl := [SarahEmail, MikeEmail, LauraEmail], BreweryTour := [SarahEmail, MikeEmail]]
    ensures NoDuplicates([SarahEmail, MikeEmail, LauraEmail]) && NoDuplicates([SarahEmail, MikeEmail])
  {
    DistinctLists(SarahEmail, MikeEmail, LauraEmail);
  }

  // ---------------------------------------------------------------- queries

  /** `DB.attendees[eventId] || []`. */
  function ListOf(db: DB, eventId: string): seq<string>
  {
    if eventId in db.attendees then db.attendees[eventId] else []
  }

  /** `authUser()`: the session's account, or nothing when logged out or the account is missing. */
  function AuthUser(db: DB): (r: Option<Account>)
    ensures r.Some? ==> Truthy(db.session) && db.session.value in db.users && r.value == db.users[db.session.value]
    ensures Truthy(db.session) && db.session.value in db.users ==> r == Some(db.users[db.session.value])
    ensures Valid(db) ==> (r.Some? <==> db.session.Some?)
    ensures Valid(db) && r.Some? ==> r.value.email == db.session.value
  {
    if Truthy(db.session) && db.session.value in db.users then Some(db.users[db.session.value]) else None
  }

  /** `eventAttendeeCount(eventId)`: the length of the event's list, 0 for an unknown event. */
  function EventAttendeeCount(db: DB, eventId: string): (n: nat)
    ensures eventId !in db.attendees ==> n == 0
    ensures n == 0 ==> forall e :: e !in ListOf(db, eventId)
  {
    |ListOf(db, eventId)|
  }

  /** `eventIsJoined(eventId)`. */
  function EventIsJoined(db: DB, eventId: string): (r: bool)
    ensures !Truthy(db.session) ==> !r
    ensures r ==> EventAttendeeCount(db, eventId) > 0
    ensures r <==> Truthy(db.session) && db.session.value in ListOf(db, eventId)
  {
    Truthy(db.session) && eventId in db.attendees && db.session.value in db.attendees[eventId]
  }

  /** `eventAttendees(eventId)`: the accounts on the event's list, in list order, dangling emails dropped. */
  function EventAttendees(db: DB, eventId: string): (r: seq<Account>)
    ensures |r| <= EventAttendeeCount(db, eventId)
    ensures forall i :: 0 <= i < |r| ==> r[i] in db.users.Values
  {
    Resolve(db.users, ListOf(db, eventId))
  }

  /** In a valid store the list names only accounts, so the view drops nothing and the count counts distinct members. */
  lemma ValidAttendees(db: DB, eventId: string)
    requires Valid(db)
    ensures |EventAttendees(db, eventId)| == EventAttendeeCount(db, eventId)
    ensures forall i :: 0 <= i < EventAttendeeCount(db, eventId) ==>
              EventAttendees(db, eventId)[i] == db.users[ListOf(db, eventId)[i]]
    ensures EventAttendeeCount(db, eventId) == |set e | e in ListOf(db, eventId)|
  {
    ResolveAllKnown(db.users, ListOf(db, eventId));
    DistinctCount(ListOf(db, eventId));
  }

  // ---------------------------------------------------------------- operations

  /** The error an operation returned (None for success) and the store after it. */
  datatype StepResult<E> = StepResult(err: Option<E>, db: DB)

  /**
   * How `authSignUp` ends: the message it returned (None for `null`), or the URIError
   * `getDefaultAvatar` threw while the record was built; and the store after it.
   */
  datatype SignUpResult = SignUpResult(err: Option<SignUpError>, threw: bool, db: DB)
  {
    predicate Created()
    {
      err.None? && !threw
    }
  }

  /** `authSignUp(name, email, password)`. */
  function SignUpStep(db: DB, name: string, email: string, password: string): (r: SignUpResult)
    ensures r.err == SignUpCheck(db.users, name, email, password)
    ensures r.threw <==> r.err.None? && AstralInitial(name)
    ensures !r.Created() ==> r.db == db
    ensures r.Created() ==> email !in db.users && r.db.users.Keys == db.users.Keys + {email}
    ensures r.Created() ==> r.db.users[email] == NewAccount(name, email, password) && r.db.session == Some(email)
    ensures forall e :: e in db.users ==> e in r.db.users && r.db.users[e] == db.users[e]
    ensures r.db.attendees == db.attendees && Extends(r.db, db)
    ensures Valid(db) ==> Valid(r.db)
  {
    var err := SignUpCheck(db.users, name, email, password);
    if err.Some? then SignUpResult(err, false, db)
    else if AstralInitial(name) then SignUpResult(None, true, db)
    else SignUpResult(None, false, db.(users := db.users[email := NewAccount(name, email, password)], session := Some(email)))
  }

  /** `authLogIn(email, password)`. */
  function LogInStep(db: DB, email: string, password: string): (r: StepResult<LogInError>)
    ensures r.err == LogInCheck(db.users, email, password)
    ensures r.db.session == if r.err.None? then Some(email) else db.session
    ensures r.db.users == db.users && r.db.attendees == db.attendees
    ensures Valid(db) ==> Valid(r.db)
  {
    var err := LogInCheck(db.users, email, password);
    if err.Some? then StepResult(err, db) else StepResult(None, db.(session := Some(email)))
  }

  /** `authLogOut()`. */
  function LogOutStep(db: DB): (r: DB)
    ensures AuthUser(r) == None && forall eventId :: !EventIsJoined(r, eventId)
    ensures r.users == db.users && r.attendees == db.attendees
    ensures Valid(db) ==> Valid(r)
  {
    db.(session := None)
  }

  /** `eventJoin(eventId)`. */
  function JoinStep(db: DB, eventId: string): (r: DB)
    ensures !Truthy(db.session) ==> r == db
    ensures Truthy(db.session) ==> EventIsJoined(r, eventId)
    ensures EventAttendeeCount(r, eventId) ==
              if Truthy(db.session) && !EventIsJoined(db, eventId) then EventAttendeeCount(db, eventId) + 1
              else EventAttendeeCount(db, eventId)
    ensures ListOf(db, eventId) <= ListOf(r, eventId)
    ensures NoDuplicates(ListOf(db, eventId)) ==> NoDuplicates(ListOf(r, eventId))
    ensures forall other :: other != eventId ==> ListOf(r, other) == ListOf(db, other)
    ensures r.users == db.users && r.session == db.session && Extends(r, db)
    ensures Valid(db) ==> Valid(r)
  {
    if !Truthy(db.session) then db
    else db.(attendees := db.attendees[eventId := AddOnce(ListOf(db, eventId), db.session.value)])
  }

  /** `profileSave({ name, age, bio, photo })`. */
  function ProfileStep(db: DB, name: string, age: string, bio: string, photo: Photo): (r: (SaveStatus, DB))
    ensures r.0 == Ignored <==> !Truthy(db.session)
    ensures r.0 == Thrown <==> Truthy(db.session) && db.session.value !in db.users
    ensures r.0 != Saved ==> r.1 == db
    ensures r.0 == Saved ==> r.1.users == db.users[db.session.value := ApplyProfile(db.users[db.session.value], name, age, bio, photo)]
    ensures r.1.users.Keys == db.users.Keys && r.1.session == db.session && r.1.attendees == db.attendees
    ensures Valid(db) ==> Valid(r.1)
  {
    if !Truthy(db.session) then (Ignored, db)
    else if db.session.value !in db.users then (Thrown, db)
    else
      var s := db.session.value;
      (Saved, db.(users := db.users[s := ApplyProfile(db.users[s], name, age, bio, photo)]))
  }

  // ---------------------------------------------------------------- persistence

  /** The parsed blob: each part may be missing (`saved.users` falsy). */
  datatype Snapshot = Snapshot(users: Option<map<string, Account>>, session: Option<string>, attendees: Option<map<string, seq<string>>>)

  /**
   * `localStorage.getItem("pubcrawl_db")`: absent or empty; Malformed when `JSON.parse` throws or
   * gives `null` (reading `saved.users` then throws); otherwise a parsed value, whose missing parts are None.
   */
  datatype Stored = NoItem | Malformed | Item(saved: Snapshot)

  /** What `JSON.stringify`/`JSON.parse` do to a record: a NaN age comes back as null. */
  function JsonAccount(a: Account): (r: Account)
    ensures r.age != NotANumber
    ensures a.age == NotANumber ==> r.age == NoAge
    ensures a.age != NotANumber ==> r == a
    ensures r == a.(age := r.age)
  {
    if a.age == NotANumber then a.(age := NoAge) else a
  }

  function JsonUsers(users: map<string, Account>): (r: map<string, Account>)
    ensures r.Keys == users.Keys
    ensures forall e :: e in r ==> r[e] == JsonAccount(users[e])
  {
    map e | e in users :: JsonAccount(users[e])
  }

  /** The store as it reads back from its own snapshot. */
  function Jsonified(db: DB): (r: DB)
    ensures r.session == db.session && r.attendees == db.attendees && r.users.Keys == db.users.Keys
    ensures forall e :: e in r.users ==> r.users[e] == JsonAccount(db.users[e])
    ensures Valid(db) ==> Valid(r)
  {
    db.(users := JsonUsers(db.users))
  }

  /** `persist()`'s payload: all three parts. */
  function Persisted(db: DB): Snapshot
  {
    Snapshot(Some(JsonUsers(db.users)), db.session, Some(db.attendees))
  }

  /** localStorage after `persist()`: the new snapshot, or the old item when `setItem` throws (quota) and is ignored. */
  function Written(prev: Stored, accepts: bool, db: DB): Stored
  {
    if accepts then Item(Persisted(db)) else prev
  }

  /** `Object.assign(target, over)` under `if (over)`: keys of `over` overwrite, the rest stay. */
  function Overlay<V>(target: map<string, V>, over: Option<map<string, V>>): (r: map<string, V>)
    ensures over.None? ==> r == target
    ensures over.Some? ==> r.Keys == target.Keys + over.value.Keys
    ensures over.Some? ==> forall k :: k in over.value ==> r[k] == over.value[k]
    ensures forall k :: k in target && (over.None? || k !in over.value) ==> r[k] == target[k]
  {
    if over.Some? then target + over.value else target
  }

  /** The merge `restore()` makes: accounts and lists overlay by key, the session only if truthy. */
  function Merge(db: DB, saved: Snapshot): (r: DB)
    ensures r.session == if Truthy(saved.session) then saved.session else db.session
    ensures r.users == Overlay(db.users, saved.users) && r.attendees == Overlay(db.attendees, saved.attendees)
    ensures Extends(r, db)
  {
    DB(Overlay(db.users, saved.users),
       if Truthy(saved.session) then saved.session else db.session,
       Overlay(db.attendees, saved.attendees))
  }

  /** `restore()`: the store and the storage item afterwards; a malformed item is removed and the store kept. */
  function Restored(db: DB, item: Stored): (r: (DB, Stored))
    ensures !item.Item? ==> r == (db, NoItem)
    ensures item.Item? ==> r == (Merge(db, item.saved), item)
  {
    match item
    case NoItem => (db, NoItem)
    case Malformed => (db, NoItem)
    case Item(saved) => (Merge(db, saved), item)
  }

  /**
   * Persistence round trip: restoring a store's snapshot over any base it extends
   * (with no session of its own) gives back the store, up to NaN ages turning null.
   * The store need not be consistent: dangling sessions and list entries come back as they were.
   */
  lemma RestoreAfterPersist(base: DB, db: DB)
    requires Extends(db, base) && base.session == None && db.session != Some("")
    ensures Merge(base, Persisted(db)) == Jsonified(db)
  {
    var r := Merge(base, Persisted(db));
    assert r.users == Jsonified(db).users;
    assert r.attendees == db.attendees;
  }

  /** A consistent store restores to a consistent store. */
  lemma RestoreKeepsValid(base: DB, db: DB)
    requires Valid(db) && Extends(db, base) && base.session == None
    ensures Valid(Merge(base, Persisted(db)))
  {
    RestoreAfterPersist(base, db);
  }

  /** Reloading the page: seeding and then restoring the last snapshot of a store that extends the seed. */
  lemma ReloadRoundTrip(db: DB)
    requires Extends(db, SeedState()) && db.session != Some("")
    ensures Restored(SeedState(), Written(NoItem, true, db)) == (Jsonified(db), Item(Persisted(db)))
  {
    RestoreAfterPersist(SeedState(), db);
  }

  /** Persisting the restored store writes the same blob again. */
  lemma PersistStable(db: DB)
    ensures Persisted(Jsonified(db)) == Persisted(db)
  {
    assert JsonUsers(JsonUsers(db.users)) == JsonUsers(db.users);
  }

  // ---------------------------------------------------------------- properties across calls

  /** Sign-up followed by log-in with the same email and password succeeds. */
  lemma SignUpThenLogInStep(db: DB, name: string, email: string, password: string)
    requires SignUpStep(db, name, email, password).Created()
    ensures LogInStep(SignUpStep(db, name, email, password).db, email, password).err.None?
    ensures AuthUser(LogInStep(SignUpStep(db, name, email, password).db, email, password).db) == Some(NewAccount(name, email, password))
  {
    SignUpThenLogIn(db.users, name, email, password);
    assert ValidEmail(email) by {
      assert !Breaks(InvalidEmail, db.users, name, email, password);
    }
  }

  /** The digest is weak: an account created with "AaAaAa" also opens with "BBBBBB". */
  lemma CollidingPasswordLogsIn(db: DB, name: string, email: string)
    requires SignUpStep(db, name, email, "AaAaAa").Created()
    ensures LogInStep(SignUpStep(db, name, email, "AaAaAa").db, email, "BBBBBB").err.None?
  {
    SignUpThenLogInStep(db, name, email, "AaAaAa");
    DigestCollision();
  }

  /** The seeded accounts were given the digest "demo", and a two-character password produces it. */
  lemma DemoAccountOpens()
    ensures LogInStep(SeedState(), SarahEmail, "\U{4ED1}\U{1}").err.None?
  {
    DemoUsers();
    DemoDigestReachable();
    assert ValidEmail(SarahEmail) by {
      assert SarahEmail[5] == '@';
    }
  }

  /** A second sign-up with a registered email is refused and leaves the first account as it was. */
  lemma SecondSignUpRefused(db: DB, name: string, email: string, password: string, name2: string, password2: string)
    requires SignUpStep(db, name, email, password).Created()
    requires name2 != "" && |Utf16(password2)| >= 6
    ensures SignUpStep(SignUpStep(db, name, email, password).db, name2, email, password2).err == Some(DuplicateEmail)
    ensures SignUpStep(SignUpStep(db, name, email, password).db, name2, email, password2).db.users[email] == NewAccount(name, email, password)
  {
    assert !Breaks(InvalidEmail, db.users, name, email, password);
  }

  /** Joining twice has the effect of joining once: the count goes up by at most one. */
  lemma JoinIdempotent(db: DB, eventId: string)
    ensures JoinStep(JoinStep(db, eventId), eventId) == JoinStep(db, eventId)
    ensures EventAttendeeCount(JoinStep(JoinStep(db, eventId), eventId), eventId) <= EventAttendeeCount(db, eventId) + 1
  {
    if Truthy(db.session) {
      var once := JoinStep(db, eventId);
      AddOnceIdempotent(ListOf(db, eventId), db.session.value);
      assert once.attendees[eventId := AddOnce(ListOf(once, eventId), db.session.value)] == once.attendees;
    }
  }

  /** Saving the same profile fields twice is the same as saving them once. */
  lemma ProfileSaveIdempotent(db: DB, name: string, age: string, bio: string, photo: Photo)
    ensures var once := ProfileStep(db, name, age, bio, photo).1;
            ProfileStep(once, name, age, bio, photo).1 == once
  {
    if Truthy(db.session) && db.session.value in db.users {
      var s := db.session.value;
      ApplyProfileIdempotent(db.users[s], name, age, bio, photo);
    }
  }

  const Newcomer: string := "alex@test.com"

  /** The newcomer's sign-up passes every rule and leaves the downtown list as seeded. */
  lemma NewcomerSignsUp()
    ensures var s1 := SignUpStep(SeedState(), "Alex", Newcomer, "secret1");
            && s1.Created() && s1.db.session == Some(Newcomer)
            && ListOf(s1.db, DowntownCrawl) == [SarahEmail, MikeEmail, LauraEmail]
  {
    NewcomerPassesChecks();
  }

  lemma NewcomerPassesChecks()
    ensures SignUpCheck(SeedState().users, "Alex", Newcomer, "secret1") == None
  {
    DemoUsers();
    assert ValidEmail(Newcomer) by {
      assert Newcomer[4] == '@';
    }
    assert |Utf16("secret1")| >= 7 by {
      assert |"secret1"| == 7;
    }
    assert Newcomer !in SeedState().users;
  }

  /** A name starting with an emoji passes every rule, then the avatar throws and nothing is stored. */
  lemma AstralNameThrows()
    ensures var r := SignUpStep(SeedState(), "\U{1F37A}Bob", Newcomer, "secret1");
            r.threw && r.err.None? && r.db == SeedState()
  {
    NewcomerPassesChecks();
    assert SignUpCheck(SeedState().users, "\U{1F37A}Bob", Newcomer, "secret1") == None by {
      assert !Breaks(MissingName, SeedState().users, "\U{1F37A}Bob", Newcomer, "secret1");
    }
  }

  /** The walk-through: a new account joins the downtown crawl, then logs out. */
  lemma NewcomerScenario()
    ensures var s1 := SignUpStep(SeedState(), "Alex", Newcomer, "secret1");
            var s2 := JoinStep(s1.db, DowntownCrawl);
            var s3 := LogOutStep(s2);
            && s1.Created() && s1.db.session == Some(Newcomer)
            && EventAttendeeCount(s2, DowntownCrawl) == EventAttendeeCount(SeedState(), DowntownCrawl) + 1 == 4
            && EventIsJoined(s2, DowntownCrawl)
            && !EventIsJoined(s3, DowntownCrawl)
            && EventAttendeeCount(s3, DowntownCrawl) == 4
  {
    NewcomerSignsUp();
    var s1 := SignUpStep(SeedState(), "Alex", Newcomer, "secret1");
    assert Newcomer !in ListOf(s1.db, DowntownCrawl);
    assert !EventIsJoined(s1.db, DowntownCrawl);
  }

  // ---------------------------------------------------------------- the store in place

  /** The browser's localStorage under the key "pubcrawl_db". */
  class LocalStorage {
    var item: Stored
    /** False while `setItem` throws (quota exceeded); the app then ignores the failure. */
    var accepts: bool

    constructor (item: Stored, accepts: bool)
      ensures this.item == item && this.accepts == accepts
    {
      this.item := item;
      this.accepts := accepts;
    }
  }

  /** The global `DB`, updated in place by the operations. */
  class Store {
    var users: map<string, Account>
    var session: Option<string>
    var attendees: map<string, seq<string>>
    const storage: LocalStorage

    function State(): DB
      reads this
    {
      DB(users, session, attendees)
    }

    /** Loading shared.js: an empty `DB`, `seedDemos()`, then `restore()`. */
    constructor Load(storage: LocalStorage)
      modifies storage`item
      ensures this.storage == storage
      ensures (State(), storage.item) == Restored(SeedState(), old(storage.item))
    {
      this.storage := storage;
      users, session, attendees := map[], None, map[];
      new;
      SeedDemos();
      Restore();
    }

    /** `seedDemos()`: store each demo account, then set the two demo lists. */
    method SeedDemos()
      modifies this
      ensures State() == Seeded(old(State()))
    {
      for i := 0 to |Demos|
        invariant users == StoreAll(old(users), Demos[..i])
        invariant session == old(session) && attendees == old(attendees)
      {
        assert Demos[..i + 1][..i] == Demos[..i];
        users := users[Demos[i].email := Demos[i]];
      }
      assert Demos[..|Demos|] == Demos;
      attendees := attendees[DowntownCrawl := [SarahEmail, MikeEmail, LauraEmail]];
      attendees := attendees[BreweryTour := [SarahEmail, MikeEmail]];
    }

    /** `persist()`: write the snapshot; a refused write leaves the old item. */
    method Persist()
      modifies storage`item
      ensures storage.item == Written(old(storage.item), storage.accepts, State())
    {
      if storage.accepts {
        storage.item := Item(Snapshot(Some(JsonUsers(users)), session, Some(attendees)));
      }
    }

    /** `restore()`. */
    method Restore()
      modifies this, storage`item
      ensures (State(), storage.item) == Restored(old(State()), old(storage.item))
    {
      match storage.item
      case NoItem =>
      case Malformed =>
        storage.item := NoItem;
      case Item(saved) =>
        if saved.users.Some? {
          users := users + saved.users.value;
        }
        if saved.attendees.Some? {
          attendees := attendees + saved.attendees.value;
        }
        if saved.session.Some? && saved.session.value != "" {
          session := saved.session;
        }
    }

    /** `authSignUp(name, email, password)`: the four checks in order, then the new account and the session. */
    method AuthSignUp(name: string, email: string, password: string) returns (err: Option<SignUpError>, threw: bool)
      modifies this, storage`item
      ensures SignUpResult(err, threw, State()) == SignUpStep(old(State()), name, email, password)
      ensures storage.item == if err.None? && !threw then Written(old(storage.item), storage.accepts, State()) else old(storage.item)
    {
      if name == "" {
        return Some(MissingName), false;
      }
      if email == "" || '@' !in email {
        return Some(InvalidEmail), false;
      }
      if |Utf16(password)| < 6 {
        return Some(ShortPassword), false;
      }
      if email in users {
        return Some(DuplicateEmail), false;
      }
      var digest := SimpleHash(password);
      var photo := DefaultAvatar(name);
      if photo.None? {
        return None, true;
      }
      users := users[email := Account(name, email, digest, photo.value, "", NoAge)];
      session := Some(email);
      Persist();
      return None, false;
    }

    /** `authLogIn(email, password)`. */
    method AuthLogIn(email: string, password: string) returns (err: Option<LogInError>)
      modifies this, storage`item
      ensures StepResult(err, State()) == LogInStep(old(State()), email, password)
      ensures storage.item == if err.None? then Written(old(storage.item), storage.accepts, State()) else old(storage.item)
    {
      if email == "" || '@' !in email {
        return Some(InvalidLogInEmail);
      }
      if password == "" {
        return Some(MissingPassword);
      }
      var digest := SimpleHash(password);
      if email !in users || users[email].passwordHash != digest {
        return Some(WrongCredentials);
      }
      session := Some(email);
      Persist();
      return None;
    }

    /** `authLogOut()`. */
    method AuthLogOut()
      modifies this, storage`item
      ensures State() == LogOutStep(old(State()))
      ensures storage.item == Written(old(storage.item), storage.accepts, State())
    {
      session := None;
      Persist();
    }

    /** `profileSave({ name, age, bio, photo })`; Thrown where the source raises a TypeError on a missing account. */
    method ProfileSave(name: string, age: string, bio: string, photo: Photo) returns (status: SaveStatus)
      modifies this, storage`item
      ensures (status, State()) == ProfileStep(old(State()), name, age, bio, photo)
      ensures storage.item == if status == Saved then Written(old(storage.item), storage.accepts, State()) else old(storage.item)
    {
      if session.None? || session.value == "" {
        return Ignored;
      }
      if session.value !in users {
        return Thrown;
      }
      var user := users[session.value];
      user := user.(name := if name != "" then name else user.name);
      user := user.(age := if age != "" then ParseInt(age) else NoAge);
      user := user.(bio := bio);
      user := user.(photo := if photo != Uri("") then photo else user.photo);
      users := users[session.value := user];
      Persist();
      return Saved;
    }

    /** `eventJoin(eventId)`: create the list if needed, append the session email once, persist. */
    method EventJoin(eventId: string)
      modifies this, storage`item
      ensures State() == JoinStep(old(State()), eventId)
      ensures storage.item == if Truthy(old(session)) then Written(old(storage.item), storage.accepts, State()) else old(storage.item)
    {
      if session.None? || session.value == "" {
        return;
      }
      if eventId !in attendees {
        attendees := attendees[eventId := []];
      }
      if session.value !in attendees[eventId] {
        attendees := attendees[eventId := attendees[eventId] + [session.value]];
      }
      Persist();
    }
  }
}
