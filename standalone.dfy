/**
 * 0.1/script.js: the earlier single-event page.  The same global `DB`, except
 * that `attendees` is one flat list of emails, and no persistence.  The
 * handlers' DOM work (reading fields, showing errors, re-rendering) is left
 * out; what remains is how they change `DB`.
 */
module Standalone {
  import opened Wrappers
  import opened Digest
  import opened Accounts
  import opened Ledger

  /** The property key `DB.users[DB.session]` looks up: a null session reads the key "null". */
  function PropertyKey(session: Option<string>): string
  {
    if session.Some? then session.value else "null"
  }

  /** The seeded records and list meet the page's invariant. */
  lemma SeededPage()
    ensures var users := map[SarahEmail := Sarah, MikeEmail := Mike, LauraEmail := Laura];
      && KeyedByEmail(users)
      && (forall e :: e in users ==> ValidEmail(e))
      && NoDuplicates([SarahEmail, MikeEmail, LauraEmail])
      && (forall e :: e in [SarahEmail, MikeEmail, LauraEmail] ==> e in users)
  {
    DistinctLists(SarahEmail, MikeEmail, LauraEmail);
    assert '@' in SarahEmail && '@' in MikeEmail && '@' in LauraEmail;
  }

  /** The page's `DB`. */
  class Page {
    var users: map<string, Account>
    var session: Option<string>
    var attendees: seq<string>

    /**
     * What the handlers keep true, from seeding on: records under their own email,
     * every key an email with "@", a session naming an account, and a list of distinct accounts.
     */
    ghost predicate Valid()
      reads this
    {
      && KeyedByEmail(users)
      && (forall e :: e in users ==> ValidEmail(e))
      && session != Some("")
      && (session.Some? ==> session.value in users)
      && NoDuplicates(attendees)
      && (forall e :: e in attendees ==> e in users)
    }

    /** Loading the script: an empty `DB`, then `seedDemoUsers()` stores each demo and pushes its email. */
    constructor SeedDemoUsers()
      ensures Valid()
      ensures users == map[SarahEmail := Sarah, MikeEmail := Mike, LauraEmail := Laura]
      ensures attendees == [SarahEmail, MikeEmail, LauraEmail] && session == None
    {
      users, session, attendees := map[], None, [];
      new;
      for i := 0 to |Demos|
        invariant users == StoreAll(map[], Demos[..i])
        invariant attendees == EmailsOf(Demos[..i]) && session == None
      {
        assert Demos[..i + 1][..i] == Demos[..i];
        users := users[Demos[i].email := Demos[i]];
        attendees := attendees + [Demos[i].email];
      }
      assert Demos[..|Demos|] == Demos;
      DemoUsers();
      DemoEmails();
      SeededPage();
    }

    /** `handleSignUp()` on the trimmed, lower-cased field values. */
    method HandleSignUp(name: string, email: string, password: string) returns (err: Option<SignUpError>, threw: bool)
      requires Valid()
      modifies this
      ensures Valid()
      ensures err == SignUpCheck(old(users), name, email, password)
      ensures threw <==> err.None? && AstralInitial(name)
      ensures err.Some? || threw ==> users == old(users) && session == old(session)
      ensures err.None? && !threw ==> users == old(users)[email := NewAccount(name, email, password)] && session == Some(email)
      ensures attendees == old(attendees)
    {
      if name == "" {
        return Some(MissingName), false;
      }
      if email == "" || '@' !in email {
        return Some(InvalidEmail), false;
      }
      if |Utf16(password)| < 6 {
        return Some(ShortPassword), false;
      }
      if email in users {
        return Some(DuplicateEmail), false;
      }
      var digest := SimpleHash(password);
      var photo := DefaultAvatar(name);
      if photo.None? {
        return None, true;
      }
      users := users[email := Account(name, email, digest, photo.value, "", NoAge)];
      session := Some(email);
      return None, false;
    }

    /** `handleLogIn()` on the trimmed, lower-cased email and the password. */
    method HandleLogIn(email: string, password: string) returns (err: Option<LogInError>)
      requires Valid()
      modifies this
      ensures Valid()
      ensures err == LogInCheck(old(users), email, password)
      ensures session == if err.None? then Some(email) else old(session)
      ensures users == old(users) && attendees == old(attendees)
    {
      if email == "" || '@' !in email {
        return Some(InvalidLogInEmail);
      }
      if password == "" {
        return Some(MissingPassword);
      }
      var digest := SimpleHash(password);
      if email !in users || users[email].passwordHash != digest {
        return Some(WrongCredentials);
      }
      session := Some(email);
      return None;
    }

    /** `logOut()`. */
    method LogOut()
      requires Valid()
      modifies this
      ensures Valid()
      ensures session == None && users == old(users) && attendees == old(attendees)
    {
      session := None;
    }

    /** `handleJoinClick()`: nothing without a session or when already listed, else push the session email. */
    method HandleJoinClick()
      requires Valid()
      modifies this
      ensures Valid()
      ensures attendees == if old(session).Some? then AddOnce(old(attendees), old(session).value) else old(attendees)
      ensures old(session).Some? ==> old(session).value in attendees
      ensures |attendees| <= |old(attendees)| + 1
      ensures users == old(users) && session == old(session)
    {
      if session.None? || session.value == "" {
        return;
      }
      if session.value in attendees {
        return;
      }
      attendees := attendees + [session.value];
    }

    /**
     * `saveProfile()` with the trimmed fields and the editor's photo: an empty name
     * aborts the whole save; otherwise name, age, bio and photo are all overwritten.
     */
    method SaveProfile(name: string, age: string, bio: string, photo: Photo) returns (status: SaveStatus)
      requires Valid()
      modifies this
      ensures Valid()
      ensures status == Ignored <==> name == ""
      ensures status == Thrown <==> name != "" && PropertyKey(old(session)) !in old(users)
      ensures status == Saved ==> old(session).Some?
      ensures status == Saved ==>
        users == old(users)[old(session).value := OverwriteProfile(old(users)[old(session).value], name, age, bio, photo)]
      ensures status != Saved ==> users == old(users)
      ensures session == old(session) && attendees == old(attendees)
    {
      if name == "" {
        return Ignored;
      }
      var key := PropertyKey(session);
      if key !in users {
        return Thrown;
      }
      assert session.Some? by {
        assert !ValidEmail("null");
      }
      var user := users[key];
      user := user.(name := name);
      user := user.(age := if age != "" then ParseInt(age) else NoAge);
      user := user.(bio := bio);
      user := user.(photo := photo);
      users := users[key := user];
      return Saved;
    }
  }
}
