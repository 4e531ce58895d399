/**
 * Attendee lists: the append-once of a join, and the `map`/`filter` that turns
 * a list of emails into the accounts that still exist.
 */
module Ledger {
  import opened Accounts

  /** An email appears at most once. */
  predicate NoDuplicates(s: seq<string>)
  {
    forall i, j :: 0 <= i < j < |s| ==> s[i] != s[j]
  }

  /** Lists of two or three different emails have no duplicates. */
  lemma DistinctLists(a: string, b: string, c: string)
    requires a != b && b != c && a != c
    ensures NoDuplicates([a, b, c]) && NoDuplicates([a, b])
  {
  }

  /** `if (!list.includes(e)) list.push(e)`. */
  function AddOnce(list: seq<string>, e: string): (r: seq<string>)
    ensures e in r && list <= r
    ensures forall x :: x in r <==> x in list || x == e
    ensures |r| == if e in list then |list| else |list| + 1
    ensures NoDuplicates(list) ==> NoDuplicates(r)
  {
    if e in list then list else list + [e]
  }

  /** Adding an email that is already there changes nothing, so a second join is a no-op. */
  lemma AddOnceIdempotent(list: seq<string>, e: string)
    ensures AddOnce(AddOnce(list, e), e) == AddOnce(list, e)
  {
  }

  /** A list without duplicates has as many entries as distinct members. */
  lemma {:induction false} DistinctCount(s: seq<string>)
    requires NoDuplicates(s)
    ensures |set x | x in s| == |s|
  {
    if s != [] {
      var rest := s[1..];
      assert NoDuplicates(rest) by {
        forall i, j | 0 <= i < j < |rest| ensures rest[i] != rest[j] {
          assert rest[i] == s[i + 1] && rest[j] == s[j + 1];
        }
      }
      DistinctCount(rest);
      assert s[0] !in rest by {
        forall k | 0 <= k < |rest| ensures rest[k] != s[0] {
          assert rest[k] == s[k + 1];
        }
      }
      assert (set x | x in s) == {s[0]} + (set x | x in rest) by {
        assert s == [s[0]] + rest;
      }
    }
  }

  /** `emails.map(e => users[e]).filter(Boolean)`: the accounts of the listed emails, in list order. */
  function Resolve(users: map<string, Account>, emails: seq<string>): (r: seq<Account>)
    ensures |r| <= |emails|
    ensures forall i :: 0 <= i < |r| ==> r[i] in users.Values
    decreases |emails|
  {
    if emails == [] then []
    else (if emails[0] in users then [users[emails[0]]] else []) + Resolve(users, emails[1..])
  }

  /** Resolving keeps list order: resolving a concatenation concatenates the results. */
  lemma {:induction false} ResolveAppend(users: map<string, Account>, a: seq<string>, b: seq<string>)
    ensures Resolve(users, a + b) == Resolve(users, a) + Resolve(users, b)
    decreases |a|
  {
    if a == [] {
      assert a + b == b;
    } else {
      assert (a + b)[0] == a[0] && (a + b)[1..] == a[1..] + b;
      ResolveAppend(users, a[1..], b);
    }
  }

  /** When every listed email has an account, nothing is dropped and position i holds the i-th email's account. */
  lemma {:induction false} ResolveAllKnown(users: map<string, Account>, emails: seq<string>)
    requires forall e :: e in emails ==> e in users
    ensures |Resolve(users, emails)| == |emails|
    ensures forall i :: 0 <= i < |emails| ==> Resolve(users, emails)[i] == users[emails[i]]
    decreases |emails|
  {
    if emails != [] {
      ResolveAllKnown(users, emails[1..]);
    }
  }

  /** An email with no account contributes nothing: the result is that of the list without it. */
  lemma {:induction false} ResolveDropsUnknown(users: map<string, Account>, a: seq<string>, e: string, b: seq<string>)
    requires e !in users
    ensures Resolve(users, a + [e] + b) == Resolve(users, a + b)
  {
    ResolveAppend(users, a + [e], b);
    ResolveAppend(users, a, [e]);
    ResolveAppend(users, a, b);
    assert Resolve(users, [e]) == [] by {
      assert [e][1..] == [];
    }
  }
}
