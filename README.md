# Pub-crawl demo: auth, session, attendance and persistence core in Dafny

This project models the client-side "backend" of a pub-crawl demo site. That backend is one in-memory store `DB` with three parts:
- `users`: account records keyed by email;
- `session`: the logged-in email, or null;
- `attendees`: attendee email lists keyed by event id.

The operations on the store are:
- sign-up, log-in and log-out;
- the current-user lookup;
- joining an event, and the joined / attendee / count queries;
- profile save;
- the write-through snapshot to localStorage and the merge that reads it back at start-up;
- the placeholder password digest.

Two versions of this logic are modelled:

- `shared.js`, the current shared layer. It is modelled in `shared_store.dfy` (module `Shared`). Each operation is first a function from the old store value `DB` to the new one (`SignUpStep`, `LogInStep`, `LogOutStep`, `JoinStep`, `ProfileStep`, `Restored`), and the properties are proved about these functions. The class `Store` then holds the three parts as fields. Its methods follow the source statement by statement and are proved to update the fields exactly as the step functions say. They also write the snapshot to a `LocalStorage` object whenever the source calls `persist()`.
- `0.1/script.js`, the earlier single-event page. It is modelled in `standalone.dfy` (module `Standalone`, class `Page`). Its attendee list is one flat sequence, and there is no persistence.

Shared pieces:
- `digest.dfy` (`Digest`): the 32-bit rolling hash over UTF-16 code units.
- `accounts.dfy` (`Accounts`): the records, the sign-up and log-in checks, the avatar colour, the age field's `parseInt`, and both profile-save rules.
- `ledger.dfy` (`Ledger`): append-once lists and the map/filter from emails to accounts.
- `wrappers.dfy`: `Option`.

Modelling choices:
- The digest is the int32 value that `toString(36)` renders. That rendering is injective, so comparing digests as strings is the same as comparing the ints. The seeded accounts' digest `"demo"` is the base-36 numeral of 625488 (`Accounts.DemoDigest`).
- JavaScript strings are `seq<char>`. `.length` and `charCodeAt` are taken over `Digest.Utf16`, which splits characters above U+FFFF into surrogate pairs.
- `age` is `NoAge | Years(n) | NotANumber`. `parseInt` can yield NaN, and `JSON.stringify` writes NaN as null, so a reload turns such an age into null (`Shared.Jsonified`).
- A photo is `Avatar(colour, initial)` or `Uri(text)`. `Uri("")` is the falsy photo that `photo || user.photo` replaces.
- A session of `""` counts as logged out, as JavaScript truthiness has it.
- Sign-up for a name whose first character lies above U+FFFF (an emoji, say) passes the four rules and then throws: `charAt(0)` is a lone high surrogate, and `encodeURIComponent` raises a URIError on it. The throw happens while the record is built, so no account is stored, the session is kept and nothing is persisted. The callers do not catch it. The model reports it as `threw`.
- `profileSave` with a session whose account is missing raises a TypeError before it changes anything. This can happen after restoring inconsistent data, and is modelled as status `Thrown` with the store unchanged and nothing persisted.

Behaviour worth noting, as the code has it:
- `shared.js`'s profile save does not abort on an empty name. It keeps the old name and still applies age, bio and photo (`shared.js:121`). Only `0.1/script.js` aborts (`0.1/script.js:252`).
- The age is not checked to be positive. It is whatever `parseInt` gives, possibly negative or NaN.
- The bio length is not bounded by the core.
- A restored session need not name an existing account. `AuthUser` then gives nothing, and `ProfileStep` gives `Thrown`.
- Email lower-casing happens in the callers (`event.js`, `index.js`), not in `authSignUp`/`authLogIn`.

Lemmas that show how weak the placeholder digest is:
- `Shared.CollidingPasswordLogsIn`: an account created with "AaAaAa" also opens with "BBBBBB".
- `Shared.DemoAccountOpens`: the demo accounts, whose digest `"demo"` looks like an unusable placeholder, open with the two-character password U+4ED1 U+0001.

## Model

| member | source | states |
|---|---|---|
| `Digest.ToInt32` | shared.js:67 | the bitwise or with 0 gives a signed 32-bit value congruent to its input modulo 2^32, and leaves in-range values alone |
| `Digest.Utf16` | shared.js:67 | a string has at least as many code units as characters; each unit is below 0x10000 and the first is the first character's first unit |
| `Digest.StepIsMultiplyAdd` | shared.js:67 | one loop step `((h << 5) - h + c)` or-ed with 0 is 31*h + c reduced to int32 |
| `Digest.HashIsPolynomial` | 0.1/script.js:26-32 | wrapping at every step gives the same digest as evaluating the base-31 polynomial of the code units and wrapping once |
| `Digest.SimpleHash` | shared.js:65-69 | the loop returns the digest of the string, an int32 equal to the wrapped polynomial hash |
| `Digest.DigestCollision` | 0.1/script.js:26-32 | two different passwords, "AaAaAa" and "BBBBBB", have the same digest |
| `Accounts.DefaultAvatar` | shared.js:72-77 | building the avatar fails (the URIError of `encodeURIComponent` on a lone surrogate) exactly when the name's first character lies above U+FFFF; otherwise its colour is one of the seven palette colours and its letter is the first character |
| `Accounts.AvatarColour` | shared.js:73-74 | the colour is `colors[charCodeAt(0) % 7]`: two names get the same colour exactly when their first code units agree modulo 7 |
| `Accounts.AvatarOfFirstUnit` | 0.1/script.js:37-43 | for the model's avatar (colour and raw first code unit, without upper-casing), two names whose avatar exists get the same one exactly when their first code units agree |
| `Accounts.DemoDigestReachable` | shared.js:55 | the seeded digest "demo" (625488 in base 36) is the digest of the password U+4ED1 U+0001 |
| `Accounts.StoreAll` | 0.1/script.js:19-22 | the seeding loop's map has exactly the old keys plus the demo emails, and keeps every record under its own email |
| `Accounts.DemoUsers` | shared.js:49-56 | seeding an empty map leaves exactly Sarah, Mike and Laura under their emails |
| `Accounts.EmailsOf` | 0.1/script.js:21 | the pushed emails are the accounts' emails, one per account, in seeding order |
| `Accounts.SignUpCheck` | shared.js:83-86 | sign-up fails with the first broken rule in the order name, email, password length, duplicate; it succeeds only when no rule is broken |
| `Accounts.NewAccount` | shared.js:88-94 | the created record has the given name and email, the password's digest, bio "", age null and the photo `getDefaultAvatar(name)`; it exists only for a name without an astral first character |
| `Accounts.SignUpMessageNamesRule` | shared.js:83-86 | each sign-up rule returns its own message, so the string tells which rule failed |
| `Accounts.LogInMessageHidesAccounts` | shared.js:104-105 | an unknown email and a wrong password for a known email return the same "Email or password is incorrect." |
| `Accounts.LogInCheck` | shared.js:100-105 | log-in succeeds exactly when the email has "@", the password is non-empty and the stored digest equals the password's; an unknown email and a wrong password give the same WrongCredentials |
| `Accounts.SignUpThenLogIn` | 0.1/script.js:69-102 | a password that passed sign-up passes the credential check against the record sign-up stored |
| `Accounts.LeadingDigits` | shared.js:122 | `parseInt` reads the longest prefix of digits and stops at the first non-digit |
| `Accounts.ParseInt` | shared.js:122 | `parseInt` gives NaN exactly when no digit follows the optional sign, else a number |
| `Accounts.ParseAge` | 0.1/script.js:256 | an empty age field gives null and a non-empty one never does |
| `Accounts.Numeral` | event.js:242 | a number renders as a non-empty string of decimal digits |
| `Accounts.NumeralValue` | event.js:242 | the digits of a number's numeral read back to the number |
| `Accounts.ParseNumeral` | shared.js:122 | `parseInt` of a number's numeral is that number |
| `Accounts.ParseNegativeNumeral` | shared.js:122 | `parseInt` of "-" and a numeral is the negative number |
| `Accounts.LeadingDigitsOfPrefix` | shared.js:122 | `parseInt` reads digits up to the first non-digit and no further |
| `Accounts.ParseNumeralPrefix` | shared.js:122 | a numeral followed by text that does not start with a digit parses to the numeral's number |
| `Accounts.ParseSignedNumeralPrefix` | shared.js:122 | the same with a leading "-" (negated) or "+" (kept) |
| `Accounts.ParseDecimalAge` | shared.js:122 | the age fields "1.5" and "12abc" save as 1 and 12 |
| `Accounts.AgeFieldRoundTrip` | event.js:242 | saving the editor's pre-filled age field gives the stored age back; only a zero, NaN or null age reads back as null |
| `Accounts.ApplyProfile` | shared.js:121-124 | shared.js's save keeps the old name or photo when the new one is empty, takes bio as given, parses age, and never touches email or digest |
| `Accounts.OverwriteProfile` | 0.1/script.js:254-258 | the 0.1 save overwrites name, age, bio and photo and keeps email and digest |
| `Accounts.ApplyProfileIdempotent` | shared.js:118-126 | saving the same fields twice equals saving them once |
| `Accounts.ProfileRulesCompared` | 0.1/script.js:252 | the two rules agree when a name and a photo are given; with an empty name shared.js keeps the name but can still change the account |
| `Ledger.AddOnce` | shared.js:134-135 | append-once keeps the old list as a prefix, contains the email, grows by one exactly when the email was absent, and never creates a duplicate |
| `Ledger.AddOnceIdempotent` | 0.1/script.js:139 | adding an email already present changes nothing |
| `Ledger.DistinctCount` | shared.js:147-149 | a list without duplicates has as many entries as distinct members |
| `Ledger.Resolve` | shared.js:144 | the map/filter yields at most one account per email, each an existing account |
| `Ledger.ResolveAppend` | shared.js:144 | resolving keeps list order: resolving a concatenation concatenates the results |
| `Ledger.ResolveAllKnown` | shared.js:144 | when every email has an account nothing is dropped and position i is the i-th email's account |
| `Ledger.ResolveDropsUnknown` | shared.js:144 | an email with no account contributes nothing |
| `Shared.Seeded` | shared.js:49-59 | seeding keeps the session and every existing key |
| `Shared.SeedStateValid` | shared.js:49-59 | after seeding there are exactly three accounts and two event lists, and the store satisfies the invariant |
| `Shared.AuthUser` | shared.js:113 | the current user is the session's account; in a valid store it is present exactly when a session is set, and carries the session's email |
| `Shared.EventAttendeeCount` | shared.js:147-149 | the count is 0 for an unknown event, and 0 means no email is listed |
| `Shared.EventIsJoined` | shared.js:139-141 | joined exactly when a session is set and its email is on the event's list; never joined when logged out |
| `Shared.EventAttendees` | shared.js:143-145 | the attendee view has at most count entries, all existing accounts |
| `Shared.ValidAttendees` | shared.js:143-149 | in a valid store the view drops nothing, follows list order, and the count equals the number of distinct members |
| `Shared.SignUpStep` | shared.js:72-98 | returns the first broken rule; throws exactly when all rules pass and the name's first character is astral; on error or throw the store is unchanged; on success exactly one new key with the new record is added, the session becomes the email, other accounts and lists are unchanged, and the invariant is kept |
| `Shared.LogInStep` | shared.js:100-109 | the session becomes the email on success and is unchanged on failure; accounts and lists never change |
| `Shared.LogOutStep` | shared.js:111 | after log-out there is no current user and no event counts as joined; accounts and lists unchanged |
| `Shared.JoinStep` | shared.js:131-137 | without a session nothing changes; otherwise the session is joined, the count rises by one only if not yet joined, the old list is a prefix, no duplicate appears, and other events' lists are unchanged |
| `Shared.ProfileStep` | shared.js:118-126 | ignored without a session, Thrown when the session's account is missing (store unchanged), otherwise only the session's record changes, by the shared.js rule |
| `Shared.JsonAccount` | shared.js:22-26 | the JSON round trip turns a NaN age into null and changes nothing else |
| `Shared.JsonUsers` | shared.js:23 | the serialised accounts have the same keys, each record after its JSON round trip |
| `Shared.Jsonified` | shared.js:22-26 | reading back a snapshot changes only NaN ages, and keeps the invariant |
| `Shared.Overlay` | shared.js:39-40 | `Object.assign` under `if`: saved keys overwrite, the remaining old keys stay, and nothing happens when the part is missing |
| `Shared.Merge` | shared.js:39-41 | accounts and lists overlay by key, and the saved session applies only if it is non-empty |
| `Shared.Restored` | shared.js:32-46 | a missing item changes nothing; a malformed item is removed and the store kept; a parsed item is merged |
| `Shared.RestoreAfterPersist` | shared.js:20-46 | restoring any store's snapshot over a base it extends (base without session) gives the store back, NaN ages aside, even when the store is inconsistent |
| `Shared.RestoreKeepsValid` | shared.js:20-46 | restoring a consistent store's snapshot gives a consistent store |
| `Shared.ReloadRoundTrip` | shared.js:49-62 | after a reload, seeding plus restoring the last snapshot reproduces the store that wrote it |
| `Shared.PersistStable` | shared.js:20-30 | persisting the restored store writes the same snapshot again |
| `Shared.SignUpThenLogInStep` | shared.js:88-106 | after a successful sign-up, log-in with the same email and password succeeds and the current user is the new record |
| `Shared.SecondSignUpRefused` | shared.js:86 | a second sign-up with a registered email fails with the duplicate-email error and the first account is unchanged |
| `Shared.JoinIdempotent` | shared.js:131-137 | joining twice has the effect of joining once, so the count rises by at most one |
| `Shared.ProfileSaveIdempotent` | shared.js:118-126 | saving the same profile twice equals saving it once |
| `Shared.CollidingPasswordLogsIn` | shared.js:104 | an account created with "AaAaAa" also opens with "BBBBBB" |
| `Shared.DemoAccountOpens` | shared.js:55 | a seeded demo account opens with the password U+4ED1 U+0001 |
| `Shared.NewcomerSignsUp` | shared.js:82-98 | signing up "Alex"/"alex@test.com"/"secret1" on the seeded store succeeds and leaves the downtown list as seeded |
| `Shared.NewcomerPassesChecks` | shared.js:83-86 | that sign-up breaks none of the four rules |
| `Shared.AstralNameThrows` | shared.js:72-98 | signing up "\U{1F37A}Bob" with a fresh email and a good password passes every rule, then throws, and the seeded store is unchanged |
| `Shared.NewcomerScenario` | shared.js:82-149 | the newcomer joins the downtown crawl (count 3 to 4, joined); after log-out the event is not joined and the count stays 4 |
| `Shared.Store.Load` | shared.js:7-62 | loading the script leaves the store and storage as restoring the stored item over the seeded store says |
| `Shared.Store.SeedDemos` | shared.js:49-59 | the seeding loop stores each demo account, then sets the two demo lists |
| `Shared.Store.Persist` | shared.js:20-30 | storage holds the new snapshot, or the old item when the write is refused |
| `Shared.Store.Restore` | shared.js:32-46 | store fields and storage item change as `Restored` says |
| `Shared.Store.AuthSignUp` | shared.js:82-98 | returns the error or the throw and leaves the fields as `SignUpStep` says; persists only on success |
| `Shared.Store.AuthLogIn` | shared.js:100-109 | returns the error and sets the session as `LogInStep` says; persists only on success |
| `Shared.Store.AuthLogOut` | shared.js:111 | clears the session and persists |
| `Shared.Store.ProfileSave` | shared.js:118-126 | updates the fields as `ProfileStep` says; persists only when saved |
| `Shared.Store.EventJoin` | shared.js:131-137 | updates the lists as `JoinStep` says; persists whenever a session is set |
| `Standalone.Page.SeedDemoUsers` | 0.1/script.js:13-23 | seeding leaves exactly the three demo accounts, the list Sarah, Mike, Laura without duplicates, no session, and the invariant |
| `Standalone.Page.HandleSignUp` | 0.1/script.js:37-87 | the same four checks in order; a throw from `getDefaultAvatar` exactly when they pass and the first character is astral; on failure or throw nothing changes; on success the new record is stored and the session becomes the email; the list is untouched |
| `Standalone.Page.HandleLogIn` | 0.1/script.js:89-104 | the session becomes the email only when the credential check passes; accounts and list are untouched |
| `Standalone.Page.LogOut` | 0.1/script.js:122-123 | the session becomes null; accounts and list are untouched |
| `Standalone.Page.HandleJoinClick` | 0.1/script.js:137-144 | without a session nothing changes, otherwise the email is appended once; the list grows by at most one and never gains a duplicate |
| `Standalone.Page.SaveProfile` | 0.1/script.js:247-258 | an empty name changes nothing; a null session throws, because key "null" has no account; otherwise the session's record is overwritten by the 0.1 rule |

## Left out

- DOM work in every file: modals, rendering, buttons, error display, form toggling and clearing the fields on log-out. It is presentation only.
- `onLogin()` in 0.1/script.js. It only switches screens and re-renders.
- Reading and normalising the form fields: `trim()` and `toLowerCase()`. In 0.1/script.js they sit inside `handleSignUp`/`handleLogIn`/`saveProfile`; in the current version they sit in the callers. The handlers are modelled on the already-normalised values, because Unicode whitespace and case tables are not modelled.
- `parseInt`'s skipping of leading whitespace, and its float range (very long digit strings, `-0`). The age field reaching it is already trimmed, and ages are unbounded integers here.
- The avatar's SVG data URI, the escaping `encodeURIComponent` does (its failure is modelled), and the upper-casing of the initial. The avatar is kept as its palette colour and the first code unit of the name. Because of the upper-casing, the source renders some different first letters identically, such as "ύ" (U+03CD) and "Ύ" (U+038E), which share colour index 0; `Accounts.AvatarOfFirstUnit` is about the model's avatar, not the rendered one.
- Lone surrogates: a JavaScript string can hold an unpaired UTF-16 surrogate, but a Dafny `string` of Unicode scalar values cannot, so the length check and digest of such a password are not modelled.
- `toString(36)` in `simpleHash`: the digest is kept as its (injective) int32 value.
- `localStorage` itself, `JSON.stringify` and `JSON.parse`. Storage is an object holding `NoItem`, `Malformed` or a parsed snapshot. A quota failure is a flag that makes writes be ignored. `Malformed` stands for a blob that does not parse or parses to `null`, the two cases that reach `restore()`'s `catch`. Any other parsed value (a number, an array, an object without the three keys) is an `Item` whose missing parts are `None`, so it merges nothing and stays stored. Field values of unexpected JSON types are not modelled.
- Object identity. Records are values in the maps, so the aliasing between `DB.users[e]` and the objects handed out by `authUser`/`eventAttendees` is not modelled.
- Prototype property names used as event ids (such as `constructor`): the maps start truly empty.
- `handlePhotoUpload` (asynchronous FileReader). The uploaded photo is an opaque `Uri` passed to the save.
- Google Maps code (`initMap`, `drawRoute`, `openPub`) and the event catalogue in index.js. They are foreign API calls and display data.
- `event.js`'s `pendingAuthAction`/`afterAuth`. This is UI glue that calls `eventJoin` after authentication.
