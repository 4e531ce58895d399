/**
 * Account records and the rules both versions of the app apply to them:
 * sign-up validation, the credential check, the default avatar's colour,
 * the age field's `parseInt`, and the two profile-save rules.
 */
module Accounts {
  import opened Wrappers
  import opened Digest

  /** A photo: a generated initial-avatar or any URI (a data URI from an upload, a demo URL). */
  datatype Photo = Avatar(colour: string, initial: int) | Uri(uri: string)

  /** `age`: null, a number from `parseInt`, or the NaN that `parseInt` gives for a non-numeric field. */
  datatype Age = NoAge | Years(n: int) | NotANumber

  /** The record stored under `users[email]`. */
  datatype Account = Account(name: string, email: string, passwordHash: int32, photo: Photo, bio: string, age: Age)

  /** Every record is stored under its own email. */
  ghost predicate KeyedByEmail(users: map<string, Account>)
  {
    forall e :: e in users ==> users[e].email == e
  }

  // ---------------------------------------------------------------- avatar

  const Palette: seq<string> := ["#e74c3c", "#3498db", "#2ecc71", "#9b59b6", "#f39c12", "#1abc9c", "#e67e22"]

  /** A name whose first character lies above U+FFFF: its `charAt(0)` is a lone high surrogate. */
  predicate AstralInitial(name: string)
  {
    name != "" && (name[0] as int) >= 0x1_0000
  }

  /**
   * `getDefaultAvatar(name)`: the colour is `colors[name.charCodeAt(0) % 7]` and the
   * letter is the first code unit.  The SVG text around them is left out, but not
   * its failure: `encodeURIComponent` throws a URIError on a surrogate code unit,
   * which is None here.
   */
  function DefaultAvatar(name: string): (p: Option<Photo>)
    requires name != ""
    ensures p.None? <==> AstralInitial(name)
    ensures p.Some? ==> p.value.Avatar? && p.value.colour in Palette && p.value.initial == name[0] as int
  {
    var first := Utf16(name)[0];
    if 0xD800 <= first < 0xE000 then None
    else Some(Avatar(Palette[first % |Palette|], first))
  }

  /** The colour is chosen by the first code unit modulo 7: two names share it exactly when those residues agree. */
  lemma AvatarColour(name: string, other: string)
    requires name != "" && other != ""
    requires !AstralInitial(name) && !AstralInitial(other)
    ensures DefaultAvatar(name).value.colour == DefaultAvatar(other).value.colour <==> Utf16(name)[0] % 7 == Utf16(other)[0] % 7
  {
  }

  /** Where it exists, the model's avatar (colour and raw first code unit) is a function of the first code unit alone. */
  lemma AvatarOfFirstUnit(name: string, other: string)
    requires name != "" && other != ""
    requires !AstralInitial(name) && !AstralInitial(other)
    ensures DefaultAvatar(name) == DefaultAvatar(other) <==> Utf16(name)[0] == Utf16(other)[0]
  {
  }

  // ---------------------------------------------------------------- seeds

  /** `"demo"`, the digest given to the seeded accounts, read as a base-36 numeral. */
  const DemoDigest: int32 := 13 * 36 * 36 * 36 + 14 * 36 * 36 + 22 * 36 + 24

  /** The seeded digest is an ordinary digest value: a two-character password produces it. */
  lemma DemoDigestReachable()
    ensures Hash("\U{4ED1}\U{1}") == DemoDigest
  {
    var u := Utf16("\U{4ED1}\U{1}");
    assert u == [0x4ED1, 1];
    assert u[..1][..0] == [] && u[..2] == u && u[..2][..1] == u[..1];
    assert Polynomial(u[..1]) == 0x4ED1;
    assert Polynomial(u) == 625488;
    HashIsPolynomial(u);
  }

  const SarahEmail: string := "sarah@demo.com"
  const MikeEmail: string := "mike@demo.com"
  const LauraEmail: string := "laura@demo.com"

  /** The three demo accounts, each `{ ...u, passwordHash: "demo" }`. */
  const Sarah: Account := Account("Sarah", SarahEmail, DemoDigest, Uri("https://i.pravatar.cc/100?img=1"), "First pub crawl — excited \U{1F37B}", Years(28))
  const Mike: Account := Account("Mike", MikeEmail, DemoDigest, Uri("https://i.pravatar.cc/100?img=2"), "Craft beer fan and pub quiz legend.", Years(31))
  const Laura: Account := Account("Laura", LauraEmail, DemoDigest, Uri("https://i.pravatar.cc/100?img=3"), "Just here for a good night out", Years(26))

  /** The demo accounts in seeding order. */
  const Demos: seq<Account> := [Sarah, Mike, Laura]

  /** `users` after the seeding loop has stored `accounts` one by one, each under its email. */
  function StoreAll(users: map<string, Account>, accounts: seq<Account>): (r: map<string, Account>)
    ensures r.Keys == users.Keys + set a | a in accounts :: a.email
    ensures KeyedByEmail(users) ==> KeyedByEmail(r)
    decreases |accounts|
  {
    if accounts == [] then users
    else StoreAll(users, accounts[..|accounts| - 1])[accounts[|accounts| - 1].email := accounts[|accounts| - 1]]
  }

  /** The seeding loop over an empty map leaves exactly the three demo accounts under their emails. */
  lemma DemoUsers()
    ensures StoreAll(map[], Demos) == map[SarahEmail := Sarah, MikeEmail := Mike, LauraEmail := Laura]
  {
    var d := Demos;
    assert d[..3] == d && d[..3][..2] == d[..2] && d[..2][..1] == d[..1] && d[..1][..0] == [];
    assert StoreAll(map[], d[..1]) == map[SarahEmail := d[0]];
    assert StoreAll(map[], d[..2]) == map[SarahEmail := d[0], MikeEmail := d[1]];
  }

  /** The emails of `accounts`, in order. */
  function EmailsOf(accounts: seq<Account>): (r: seq<string>)
    ensures |r| == |accounts|
    ensures forall i :: 0 <= i < |r| ==> r[i] == accounts[i].email
    decreases |accounts|
  {
    if accounts == [] then [] else EmailsOf(accounts[..|accounts| - 1]) + [accounts[|accounts| - 1].email]
  }

  /** The demo emails in seeding order, all different. */
  lemma DemoEmails()
    ensures EmailsOf(Demos) == [SarahEmail, MikeEmail, LauraEmail]
  {
    var d := Demos;
    assert d[..3] == d && d[..3][..2] == d[..2] && d[..2][..1] == d[..1] && d[..1][..0] == [];
  }

  // ---------------------------------------------------------------- sign-up

  /** The sign-up rules, in the order they are checked. */
  datatype SignUpError = MissingName | InvalidEmail | ShortPassword | DuplicateEmail

  const SignUpRules: seq<SignUpError> := [MissingName, InvalidEmail, ShortPassword, DuplicateEmail]

  /** The string `authSignUp` returns when a rule fails (`null` on success). */
  function SignUpMessage(e: SignUpError): string
  {
    match e
    case MissingName => "Please enter your name."
    case InvalidEmail => "Please enter a valid email."
    case ShortPassword => "Password must be at least 6 characters."
    case DuplicateEmail => "An account with that email already exists."
  }

  /** Each sign-up rule has its own message, so the returned string names the rule that failed. */
  lemma SignUpMessageNamesRule(e1: SignUpError, e2: SignUpError)
    ensures SignUpMessage(e1) == SignUpMessage(e2) <==> e1 == e2
  {
  }

  /** `!email || !email.includes("@")` fails. */
  predicate ValidEmail(email: string)
  {
    email != "" && '@' in email
  }

  /** Whether a sign-up attempt breaks `rule`, looked at on its own. */
  predicate Breaks(rule: SignUpError, users: map<string, Account>, name: string, email: string, password: string)
  {
    match rule
    case MissingName => name == ""
    case InvalidEmail => !ValidEmail(email)
    case ShortPassword => |Utf16(password)| < 6
    case DuplicateEmail => email in users
  }

  /** The sign-up validation: the first rule broken, or None when all hold. */
  function SignUpCheck(users: map<string, Account>, name: string, email: string, password: string): (r: Option<SignUpError>)
    ensures r.None? ==> forall rule :: !Breaks(rule, users, name, email, password)
    ensures r.Some? ==> Breaks(r.value, users, name, email, password)
    ensures r.Some? ==> forall i :: 0 <= i < |SignUpRules| && SignUpRules[i] == r.value ==>
              forall j :: 0 <= j < i ==> !Breaks(SignUpRules[j], users, name, email, password)
  {
    if name == "" then Some(MissingName)
    else if !ValidEmail(email) then Some(InvalidEmail)
    else if |Utf16(password)| < 6 then Some(ShortPassword)
    else if email in users then Some(DuplicateEmail)
    else None
  }

  /** The record a successful sign-up stores; building it throws for an astral initial. */
  function NewAccount(name: string, email: string, password: string): (a: Account)
    requires name != "" && !AstralInitial(name)
    ensures a.name == name && a.email == email && a.passwordHash == Hash(password)
    ensures a.bio == "" && a.age == NoAge && Some(a.photo) == DefaultAvatar(name)
  {
    Account(name, email, Hash(password), DefaultAvatar(name).value, "", NoAge)
  }

  // ---------------------------------------------------------------- log-in

  /** The log-in failures; an unknown email and a wrong password share WrongCredentials. */
  datatype LogInError = InvalidLogInEmail | MissingPassword | WrongCredentials

  /** The string `authLogIn` returns when the attempt fails. */
  function LogInMessage(e: LogInError): string
  {
    match e
    case InvalidLogInEmail => "Please enter a valid email."
    case MissingPassword => "Please enter your password."
    case WrongCredentials => "Email or password is incorrect."
  }

  /** An unknown email and a wrong password for a known one return the same message, so the reply does not reveal which accounts exist. */
  lemma LogInMessageHidesAccounts(users: map<string, Account>, unknown: string, known: string, password: string)
    requires ValidEmail(unknown) && ValidEmail(known) && password != ""
    requires unknown !in users && known in users && users[known].passwordHash != Hash(password)
    ensures LogInCheck(users, unknown, password) == LogInCheck(users, known, password) == Some(WrongCredentials)
    ensures LogInMessage(LogInCheck(users, unknown, password).value) == "Email or password is incorrect."
  {
  }

  /** The credential check of a log-in attempt. */
  function LogInCheck(users: map<string, Account>, email: string, password: string): (r: Option<LogInError>)
    ensures r.None? <==> ValidEmail(email) && password != "" && email in users && users[email].passwordHash == Hash(password)
    ensures r == Some(WrongCredentials) <==>
              ValidEmail(email) && password != "" && (email !in users || users[email].passwordHash != Hash(password))
    ensures r == Some(InvalidLogInEmail) <==> !ValidEmail(email)
  {
    if !ValidEmail(email) then Some(InvalidLogInEmail)
    else if password == "" then Some(MissingPassword)
    else if email !in users || users[email].passwordHash != Hash(password) then Some(WrongCredentials)
    else None
  }

  /** A password that passed sign-up validation passes the credential check against the record sign-up stored. */
  lemma SignUpThenLogIn(users: map<string, Account>, name: string, email: string, password: string)
    requires SignUpCheck(users, name, email, password).None? && !AstralInitial(name)
    ensures LogInCheck(users[email := NewAccount(name, email, password)], email, password).None?
  {
    assert !Breaks(ShortPassword, users, name, email, password);
    assert !Breaks(InvalidEmail, users, name, email, password);
    assert !Breaks(MissingName, users, name, email, password);
  }

  // ---------------------------------------------------------------- age field

  predicate IsDigit(c: char)
  {
    '0' <= c <= '9'
  }

  /** The longest prefix of digits: what `parseInt` reads. */
  function LeadingDigits(s: string): (d: string)
    ensures d <= s
    ensures forall k :: 0 <= k < |d| ==> IsDigit(d[k])
    ensures |d| < |s| ==> !IsDigit(s[|d|])
  {
    if s == [] || !IsDigit(s[0]) then [] else [s[0]] + LeadingDigits(s[1..])
  }

  /** The value of a string of decimal digits. */
  function DigitsValue(d: string): (n: nat)
    requires forall k :: 0 <= k < |d| ==> IsDigit(d[k])
    decreases |d|
  {
    if d == [] then 0
    else
      assert IsDigit(d[|d| - 1]);
      10 * DigitsValue(d[..|d| - 1]) + (d[|d| - 1] as int - '0' as int)
  }

  /**
   * `parseInt(s, 10)` on a field that has already been trimmed: an optional sign,
   * then as many digits as there are; no digit at all gives NaN.
   */
  function ParseInt(s: string): (a: Age)
    ensures a != NoAge
    ensures a == NotANumber <==> LeadingDigits(if s != [] && (s[0] == '-' || s[0] == '+') then s[1..] else s) == []
  {
    var negative := s != [] && s[0] == '-';
    var rest := if s != [] && (s[0] == '-' || s[0] == '+') then s[1..] else s;
    var d := LeadingDigits(rest);
    if d == [] then NotANumber
    else if negative then Years(0 - DigitsValue(d))
    else Years(DigitsValue(d))
  }

  /** `age ? parseInt(age, 10) : null`. */
  function ParseAge(field: string): (a: Age)
    ensures a == NoAge <==> field == ""
  {
    if field == "" then NoAge else ParseInt(field)
  }

  /** The decimal numeral of `n`, as a number prints in a template literal. */
  function Numeral(n: nat): (s: string)
    ensures s != [] && forall k :: 0 <= k < |s| ==> IsDigit(s[k])
  {
    if n < 10 then [('0' as int + n) as char]
    else Numeral(n / 10) + [('0' as int + n % 10) as char]
  }

  lemma {:induction false} NumeralValue(n: nat)
    ensures DigitsValue(Numeral(n)) == n
  {
    if n >= 10 {
      NumeralValue(n / 10);
      var s := Numeral(n);
      assert s[..|s| - 1] == Numeral(n / 10);
    }
  }

  lemma AllDigitsRead(s: string)
    requires forall k :: 0 <= k < |s| ==> IsDigit(s[k])
    ensures LeadingDigits(s) == s
  {
  }

  /** A numeral parses back to its number. */
  lemma ParseNumeral(m: nat)
    ensures ParseInt(Numeral(m)) == Years(m)
  {
    AllDigitsRead(Numeral(m));
    NumeralValue(m);
  }

  /** `parseInt` stops at the first non-digit: a digit string followed by other text reads as the digits. */
  lemma {:induction false} LeadingDigitsOfPrefix(d: string, t: string)
    requires forall k :: 0 <= k < |d| ==> IsDigit(d[k])
    requires t == [] || !IsDigit(t[0])
    ensures LeadingDigits(d + t) == d
  {
    if d != [] {
      assert (d + t)[1..] == d[1..] + t;
      LeadingDigitsOfPrefix(d[1..], t);
    }
  }

  /** A numeral followed by text that does not start with a digit ("1.5", "12abc") parses to the numeral's number. */
  lemma ParseNumeralPrefix(m: nat, t: string)
    requires t == [] || !IsDigit(t[0])
    ensures ParseInt(Numeral(m) + t) == Years(m)
  {
    LeadingDigitsOfPrefix(Numeral(m), t);
    NumeralValue(m);
  }

  /** The same with a sign in front: "-" negates, "+" does not. */
  lemma ParseSignedNumeralPrefix(m: nat, t: string)
    requires t == [] || !IsDigit(t[0])
    ensures ParseInt("-" + Numeral(m) + t) == Years(0 - m)
    ensures ParseInt("+" + Numeral(m) + t) == Years(m)
  {
    assert ("-" + Numeral(m) + t)[1..] == Numeral(m) + t;
    assert ("+" + Numeral(m) + t)[1..] == Numeral(m) + t;
    LeadingDigitsOfPrefix(Numeral(m), t);
    NumeralValue(m);
  }

  /** A decimal age from the number field keeps its integer part. */
  lemma ParseDecimalAge()
    ensures ParseAge("1.5") == Years(1) && ParseAge("12abc") == Years(12)
  {
    assert Numeral(1) == "1";
    assert "1.5" == Numeral(1) + ".5";
    ParseNumeralPrefix(1, ".5");
    assert Numeral(12) == "12";
    assert "12abc" == Numeral(12) + "abc";
    ParseNumeralPrefix(12, "abc");
  }

  /** A minus sign and a numeral parse back to the negative number. */
  lemma ParseNegativeNumeral(m: nat)
    requires m > 0
    ensures ParseInt("-" + Numeral(m)) == Years(0 - m)
  {
    var s := "-" + Numeral(m);
    assert s[1..] == Numeral(m);
    AllDigitsRead(Numeral(m));
    NumeralValue(m);
  }

  /** The age field the profile editor pre-fills: `user.age || ''`. */
  function AgeField(a: Age): string
  {
    match a
    case Years(n) => if n > 0 then Numeral(n) else if n < 0 then "-" + Numeral(-n) else ""
    case _ => ""
  }

  /** Saving the pre-filled age field gives the age back; only a zero, NaN or null age reads back as null. */
  lemma AgeFieldRoundTrip(a: Age)
    ensures ParseAge(AgeField(a)) == if a.Years? && a.n != 0 then a else NoAge
  {
    if a.Years? && a.n > 0 {
      assert AgeField(a) == Numeral(a.n) != "";
      ParseNumeral(a.n);
    } else if a.Years? && a.n < 0 {
      var m: nat := -a.n;
      assert AgeField(a) == "-" + Numeral(m) != "";
      ParseNegativeNumeral(m);
    } else {
      assert AgeField(a) == "";
    }
  }

  // ---------------------------------------------------------------- profile save

  /** The result of a profile save: applied, ignored without error, or a TypeError before any change. */
  datatype SaveStatus = Saved | Ignored | Thrown

  /** A photo value JavaScript treats as present (`photo || …` keeps the old one for `""`). */
  predicate PhotoGiven(p: Photo)
  {
    p != Uri("")
  }

  /**
   * shared.js's rule: an empty name or photo keeps the old one; the age field is
   * parsed; the bio is taken as given.
   */
  function ApplyProfile(acc: Account, name: string, age: string, bio: string, photo: Photo): (r: Account)
    ensures r.email == acc.email && r.passwordHash == acc.passwordHash
    ensures r.name == (if name != "" then name else acc.name)
    ensures acc.name != "" || name != "" ==> r.name != ""
    ensures r.photo == (if PhotoGiven(photo) then photo else acc.photo)
    ensures r.bio == bio && r.age == ParseAge(age)
  {
    acc.(name := if name != "" then name else acc.name,
         age := ParseAge(age),
         bio := bio,
         photo := if PhotoGiven(photo) then photo else acc.photo)
  }

  /** 0.1/script.js's rule, once the name is known to be non-empty: every field is overwritten. */
  function OverwriteProfile(acc: Account, name: string, age: string, bio: string, photo: Photo): (r: Account)
    requires name != ""
    ensures r.email == acc.email && r.passwordHash == acc.passwordHash
    ensures r.name == name && r.photo == photo && r.bio == bio && r.age == ParseAge(age)
  {
    acc.(name := name, age := ParseAge(age), bio := bio, photo := photo)
  }

  /** Saving the same fields twice is the same as saving them once. */
  lemma ApplyProfileIdempotent(acc: Account, name: string, age: string, bio: string, photo: Photo)
    ensures ApplyProfile(ApplyProfile(acc, name, age, bio, photo), name, age, bio, photo) == ApplyProfile(acc, name, age, bio, photo)
  {
  }

  /** The two versions agree whenever a name and a photo are given; with an empty name shared.js still saves. */
  lemma ProfileRulesCompared(acc: Account, name: string, age: string, bio: string, photo: Photo)
    ensures name != "" && PhotoGiven(photo) ==> ApplyProfile(acc, name, age, bio, photo) == OverwriteProfile(acc, name, age, bio, photo)
    ensures name == "" ==> ApplyProfile(acc, name, age, bio, photo).name == acc.name
    ensures name == "" && bio != acc.bio ==> ApplyProfile(acc, name, age, bio, photo) != acc
  {
  }
}
