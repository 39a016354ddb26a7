/**
 * The `filter` calls of the services, each with its closure written out as
 * a `Criterion`, and the facts every filter shares.
 */
module Selection {
  import opened Records

  datatype Criterion =
    | InRange(lo: int, hi: int)                        // lo <= timestamp <= hi
    | OtherSameMerchant(id: int, merchant: string)     // same merchant, different id
    | OwnedInRange(user: int, lo: int, hi: int)        // lo <= timestamp <= hi, owned by user
    | OwnedAfter(user: int, since: int)                // timestamp > since, owned by user

  predicate Matches(c: Criterion, t: Transaction) {
    match c
    case InRange(lo, hi) => lo <= t.timestamp <= hi
    case OtherSameMerchant(id, merchant) => t.merchant == merchant && t.id != id
    case OwnedInRange(user, lo, hi) => lo <= t.timestamp <= hi && t.owner == Some(user)
    case OwnedAfter(user, since) => t.timestamp > since && t.owner == Some(user)
  }

  /** The entries of `s` that match `c`, in their original order. */
  function Select(c: Criterion, s: seq<Transaction>): (r: seq<Transaction>)
    ensures |r| <= |s|
    ensures forall t :: t in r <==> t in s && Matches(c, t)
    decreases |s|
  {
    if s == [] then []
    else if Matches(c, s[0]) then [s[0]] + Select(c, s[1..])
    else Select(c, s[1..])
  }

  /** Every matching entry is kept as often as it occurs, and nothing else is. */
  lemma {:induction false} SelectMultiset(c: Criterion, s: seq<Transaction>)
    ensures forall t :: multiset(Select(c, s))[t] == if Matches(c, t) then multiset(s)[t] else 0
    decreases |s|
  {
    if s != [] {
      SelectMultiset(c, s[1..]);
      assert s == [s[0]] + s[1..];
    }
  }

  /** A filter only sees which entries are present, not their order. */
  lemma SelectPermutation(c: Criterion, a: seq<Transaction>, b: seq<Transaction>)
    requires multiset(a) == multiset(b)
    ensures multiset(Select(c, a)) == multiset(Select(c, b))
    ensures |Select(c, a)| == |Select(c, b)|
  {
    SelectMultiset(c, a);
    SelectMultiset(c, b);
    assert forall t :: multiset(Select(c, a))[t] == multiset(Select(c, b))[t];
    assert |multiset(Select(c, a))| == |Select(c, a)|;
    assert |multiset(Select(c, b))| == |Select(c, b)|;
  }

  /** A filter that every entry passes returns its input unchanged. */
  lemma {:induction false} SelectAll(c: Criterion, s: seq<Transaction>)
    requires forall t :: t in s ==> Matches(c, t)
    ensures Select(c, s) == s
    decreases |s|
  {
    if s != [] {
      assert s[0] in s;
      assert forall t :: t in s[1..] ==> t in s;
      SelectAll(c, s[1..]);
    }
  }

  /** A filter that no entry passes returns nothing. */
  lemma SelectNone(c: Criterion, s: seq<Transaction>)
    requires forall t :: t in s ==> !Matches(c, t)
    ensures Select(c, s) == []
  {
  }

  /** Filtering distributes over concatenation. */
  lemma {:induction false} SelectAppend(c: Criterion, a: seq<Transaction>, b: seq<Transaction>)
    ensures Select(c, a + b) == Select(c, a) + Select(c, b)
    decreases |a|
  {
    if a == [] {
      assert a + b == b;
    } else {
      assert (a + b)[0] == a[0] && (a + b)[1..] == a[1..] + b;
      SelectAppend(c, a[1..], b);
      var head := if Matches(c, a[0]) then [a[0]] else [];
      assert Select(c, a + b) == head + Select(c, a[1..] + b);
      assert Select(c, a) == head + Select(c, a[1..]);
    }
  }

  /** Appending entries that fail the criterion leaves the filtered result unchanged. */
  lemma SelectAppendNone(c: Criterion, a: seq<Transaction>, b: seq<Transaction>)
    requires forall t :: t in b ==> !Matches(c, t)
    ensures Select(c, a + b) == Select(c, a)
  {
    SelectAppend(c, a, b);
    SelectNone(c, b);
    assert Select(c, a) + [] == Select(c, a);
  }
}
