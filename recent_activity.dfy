/**
 * The dashboard's recent activity list (src/components/dashboard/RecentActivity.tsx): the contacts
 * that have left status `new`, most recently contacted first, at most five of them. A missing
 * `lastContacted` sorts as time 0. `Array.prototype.sort`, which is stable, is modelled by a stable insertion sort.
 */
module RecentActivity {
  import opened Wrappers
  import opened Types
  import Seqs

  /** How many contacts the card shows. */
  const Shown: nat := 5

  /** `c.lastContacted?.getTime() || 0`. */
  function Key(c: Contact): int
  {
    c.lastContacted.GetOr(0)
  }

  /** Most recent first: keys never increase along the sequence. */
  predicate Descending(s: seq<Contact>)
  {
    forall i, j :: 0 <= i < j < |s| ==> Key(s[i]) >= Key(s[j])
  }

  /** Puts `x` in front of the first element that is not more recent than it. */
  function Insert(x: Contact, ys: seq<Contact>): (r: seq<Contact>)
    ensures multiset(r) == multiset(ys) + multiset{x}
    ensures Descending(ys) ==> Descending(r)
    decreases |ys|
  {
    if |ys| == 0 then [x]
    else if Key(ys[0]) > Key(x) then
      var rest := Insert(x, ys[1..]);
      assert ys == [ys[0]] + ys[1..];
      InsertDescending(x, ys, rest);
      [ys[0]] + rest
    else
      ConsDescending(x, ys);
      [x] + ys
  }

  lemma ConsDescending(x: Contact, ys: seq<Contact>)
    requires |ys| > 0 && Key(ys[0]) <= Key(x)
    ensures Descending(ys) ==> Descending([x] + ys)
  {
    if Descending(ys) {
      var r := [x] + ys;
      forall i, j | 0 <= i < j < |r| ensures Key(r[i]) >= Key(r[j]) {
        assert r[j] == ys[j - 1];
        if i > 0 {
          assert r[i] == ys[i - 1];
        }
      }
    }
  }

  lemma InsertDescending(x: Contact, ys: seq<Contact>, rest: seq<Contact>)
    requires |ys| > 0 && Key(ys[0]) > Key(x)
    requires multiset(rest) == multiset(ys[1..]) + multiset{x}
    requires Descending(ys[1..]) ==> Descending(rest)
    ensures Descending(ys) ==> Descending([ys[0]] + rest)
  {
    if Descending(ys) {
      var tail := ys[1..];
      assert Descending(tail) by {
        forall i, j | 0 <= i < j < |tail| ensures Key(tail[i]) >= Key(tail[j]) {
          assert tail[i] == ys[i + 1] && tail[j] == ys[j + 1];
        }
      }
      var r := [ys[0]] + rest;
      forall i, j | 0 <= i < j < |r| ensures Key(r[i]) >= Key(r[j]) {
        if i == 0 {
          var y := r[j];
          assert y == rest[j - 1] && y in multiset(rest);
          if y != x {
            assert y in multiset(tail);
            var k :| 0 <= k < |tail| && tail[k] == y;
            assert ys[k + 1] == y;
          }
        } else {
          assert r[i] == rest[i - 1] && r[j] == rest[j - 1];
        }
      }
    }
  }

  /** `.sort((a, b) => dateB - dateA)`: a descending permutation of its input. */
  function SortByRecency(s: seq<Contact>): (r: seq<Contact>)
    ensures multiset(r) == multiset(s)
    ensures |r| == |s|
    ensures Descending(r)
    decreases |s|
  {
    if |s| == 0 then []
    else
      assert s == [s[0]] + s[1..];
      Insert(s[0], SortByRecency(s[1..]))
  }

  /** The contacts whose sort key is `k`. */
  function WithKey(k: int): Contact -> bool
  {
    (c: Contact) => Key(c) == k
  }

  /** `Insert` only passes elements that are strictly more recent than `x`, so no tie of `x` is passed. */
  lemma {:induction false} InsertKeepsTies(x: Contact, ys: seq<Contact>, k: int)
    ensures Seqs.Filter(Insert(x, ys), WithKey(k))
            == if Key(x) == k then [x] + Seqs.Filter(ys, WithKey(k)) else Seqs.Filter(ys, WithKey(k))
    decreases |ys|
  {
    var p := WithKey(k);
    var r := Insert(x, ys);
    if |ys| == 0 {
      Seqs.FilterStep(r, p);
      assert r[1..] == [];
    } else if Key(ys[0]) > Key(x) {
      InsertKeepsTies(x, ys[1..], k);
      Seqs.FilterStep(r, p);
      Seqs.FilterStep(ys, p);
      assert r[1..] == Insert(x, ys[1..]);
    } else {
      Seqs.FilterStep(r, p);
      assert r[1..] == ys;
    }
  }

  /**
   * The sort is stable: for every key, the contacts with that key come out in their input order,
   * as `Array.prototype.sort` guarantees for a consistent comparator.
   */
  lemma {:induction false} SortStable(s: seq<Contact>, k: int)
    ensures Seqs.Filter(SortByRecency(s), WithKey(k)) == Seqs.Filter(s, WithKey(k))
    decreases |s|
  {
    if |s| > 0 {
      SortStable(s[1..], k);
      InsertKeepsTies(s[0], SortByRecency(s[1..]), k);
      Seqs.FilterStep(s, WithKey(k));
    }
  }

  function NotNew(c: Contact): bool { c.status != New }

  /** `.filter(c => c.status !== 'new')`. */
  function Contacted(cs: seq<Contact>): (r: seq<Contact>)
    ensures forall c :: c in r <==> c in cs && c.status != New
    ensures multiset(r) <= multiset(cs)
  {
    Seqs.Filter(cs, NotNew)
  }

  /** The first `n` elements of a descending sequence: descending, and a sub-multiset of it. */
  lemma PrefixOfSorted(sorted: seq<Contact>, n: nat)
    requires n <= |sorted| && Descending(sorted)
    ensures Descending(sorted[..n])
    ensures multiset(sorted) == multiset(sorted[..n]) + multiset(sorted[n..])
    ensures forall x, y :: x in sorted[..n] && y in sorted[n..] ==> Key(y) <= Key(x)
  {
    assert sorted == sorted[..n] + sorted[n..];
    forall x, y | x in sorted[..n] && y in sorted[n..] ensures Key(y) <= Key(x) {
      var i :| 0 <= i < n && sorted[..n][i] == x;
      var k :| 0 <= k < |sorted[n..]| && sorted[n..][k] == y;
      assert sorted[i] == x && sorted[n + k] == y;
    }
  }

  /** `recentContacts`: at most five contacted contacts, most recent first, with no contact shown more often than it occurs. */
  function RecentContacts(cs: seq<Contact>): (r: seq<Contact>)
    ensures |r| <= Shown
    ensures forall c :: c in r ==> c in cs && c.status != New
    ensures Descending(r)
    ensures multiset(r) <= multiset(Contacted(cs))
    ensures |r| == if |Contacted(cs)| < Shown then |Contacted(cs)| else Shown
  {
    var sorted := SortByRecency(Contacted(cs));
    var n := if |sorted| < Shown then |sorted| else Shown;
    PrefixOfSorted(sorted, n);
    assert forall c :: c in sorted[..n] ==> c in multiset(sorted);
    sorted[..n]
  }

  /** With five or more contacted contacts, exactly five are shown. */
  lemma FullCard(cs: seq<Contact>)
    requires |Contacted(cs)| >= Shown
    ensures |RecentContacts(cs)| == Shown
  {
  }

  /** Every contacted contact left off the card was contacted no later than every contact on it. */
  lemma ShownAreMostRecent(cs: seq<Contact>)
    ensures var shown := RecentContacts(cs);
            forall x, y :: x in shown && y in multiset(Contacted(cs)) - multiset(shown) ==> Key(y) <= Key(x)
  {
    var sorted := SortByRecency(Contacted(cs));
    var n := if |sorted| < Shown then |sorted| else Shown;
    PrefixOfSorted(sorted, n);
    var shown := RecentContacts(cs);
    assert shown == sorted[..n];
    assert multiset(Contacted(cs)) - multiset(shown) == multiset(sorted[n..]);
  }

  /**
   * Among contacts with the same key, the card shows the ones that come first in the input: the
   * shown ties are a prefix of all contacted ties, in input order.
   */
  lemma TiesShownInInputOrder(cs: seq<Contact>, k: int)
    ensures var ties := Seqs.Filter(Contacted(cs), WithKey(k));
            var shown := Seqs.Filter(RecentContacts(cs), WithKey(k));
            |shown| <= |ties| && shown == ties[..|shown|]
  {
    var sorted := SortByRecency(Contacted(cs));
    var n := if |sorted| < Shown then |sorted| else Shown;
    assert RecentContacts(cs) == sorted[..n];
    Seqs.FilterPrefix(sorted, n, WithKey(k));
    SortStable(Contacted(cs), k);
  }

  /** The card is empty exactly when every contact is still `new` (in particular for no contacts). */
  lemma EmptyCard(cs: seq<Contact>)
    ensures |RecentContacts(cs)| == 0 <==> forall c :: c in cs ==> c.status == New
  {
    if |RecentContacts(cs)| == 0 {
      assert |Contacted(cs)| == 0;
    } else {
      assert RecentContacts(cs)[0] in RecentContacts(cs);
    }
  }
}
