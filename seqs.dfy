/** `Array.prototype.filter` and `map` on sequences, with the facts the model uses about them. */
module Seqs {

  /** The elements of s that satisfy p, in their original order. */
  function Filter<T>(s: seq<T>, p: T -> bool): (r: seq<T>)
    ensures |r| <= |s|
    ensures forall i :: 0 <= i < |r| ==> p(r[i]) && r[i] in s
    ensures forall i :: 0 <= i < |s| && p(s[i]) ==> s[i] in r
  {
    if s == [] then []
    else
      var rest := Filter(s[1..], p);
      assert forall i :: 1 <= i < |s| ==> s[i] == s[1..][i - 1];
      (if p(s[0]) then [s[0]] else []) + rest
  }

  /** Filtering distributes over concatenation, so it keeps the order of the input. */
  lemma {:induction false} FilterAppend<T>(a: seq<T>, b: seq<T>, p: T -> bool)
    ensures Filter(a + b, p) == Filter(a, p) + Filter(b, p)
  {
    if a == [] {
      assert a + b == b;
    } else {
      assert (a + b)[1..] == a[1..] + b;
      FilterAppend(a[1..], b, p);
    }
  }

  /** Filtering a sequence none of whose elements fail p returns it whole. */
  lemma {:induction false} FilterAll<T>(s: seq<T>, p: T -> bool)
    requires forall i :: 0 <= i < |s| ==> p(s[i])
    ensures Filter(s, p) == s
  {
    if s != [] {
      FilterAll(s[1..], p);
    }
  }

  /** When some element fails p, filtering shortens the sequence. */
  lemma {:induction false} FilterDrops<T>(s: seq<T>, p: T -> bool, k: nat)
    requires k < |s| && !p(s[k])
    ensures |Filter(s, p)| < |s|
  {
    if k > 0 {
      FilterDrops(s[1..], p, k - 1);
    }
  }

  /** Filtering keeps every occurrence of a passing element and none of a failing one. */
  lemma {:induction false} FilterMultiset<T>(s: seq<T>, p: T -> bool, x: T)
    ensures multiset(Filter(s, p))[x] == if p(x) then multiset(s)[x] else 0
  {
    if s != [] {
      FilterMultiset(s[1..], p, x);
      assert s == [s[0]] + s[1..];
      assert multiset(s) == multiset([s[0]]) + multiset(s[1..]);
      var head := if p(s[0]) then [s[0]] else [];
      assert Filter(s, p) == head + Filter(s[1..], p);
      assert multiset(Filter(s, p)) == multiset(head) + multiset(Filter(s[1..], p));
    }
  }

  /** f applied to every element, in order. */
  function Map<T, U>(s: seq<T>, f: T -> U): (r: seq<U>)
    ensures |r| == |s|
    ensures forall i :: 0 <= i < |s| ==> r[i] == f(s[i])
  {
    seq(|s|, i requires 0 <= i < |s| => f(s[i]))
  }

  lemma MapAppend<T, U>(a: seq<T>, b: seq<T>, f: T -> U)
    ensures Map(a + b, f) == Map(a, f) + Map(b, f)
  {
  }

  /** No element occurs twice. */
  predicate NoDuplicates<T(==)>(s: seq<T>) {
    forall i, j :: 0 <= i < j < |s| ==> s[i] != s[j]
  }

  /** The predicate `(email) => email !== e`. */
  function Other(e: string): string -> bool {
    (x: string) => x != e
  }

  lemma RemoveEmailLength(emails: seq<string>, e: string)
    ensures e in emails ==> |Filter(emails, Other(e))| < |emails|
    ensures e !in emails ==> Filter(emails, Other(e)) == emails
  {
    if e in emails {
      var k :| 0 <= k < |emails| && emails[k] == e;
      FilterDrops(emails, Other(e), k);
    } else {
      FilterAll(emails, Other(e));
    }
  }

  /** `emails.filter((email) => email !== e)`. */
  function RemoveEmail(emails: seq<string>, e: string): (r: seq<string>)
    ensures e !in r
    ensures forall x :: x in r <==> x in emails && x != e
    ensures multiset(r) == multiset(emails)[e := 0]
    ensures e in emails ==> |r| < |emails|
    ensures e !in emails ==> r == emails
  {
    RemoveEmailLength(emails, e);
    var r := Filter(emails, Other(e));
    forall x {
      FilterMultiset(emails, Other(e), x);
    }
    assert multiset(r) == multiset(emails)[e := 0];
    r
  }

  /** Removing keeps the order of the other addresses: it distributes over concatenation. */
  lemma RemoveEmailAppend(a: seq<string>, b: seq<string>, e: string)
    ensures RemoveEmail(a + b, e) == RemoveEmail(a, e) + RemoveEmail(b, e)
  {
    FilterAppend(a, b, Other(e));
  }
}
