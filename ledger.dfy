/**
 * The group-wallet ledger's entities and the list operations every screen
 * builds on: `filter`, the signed `reduce` over amounts, the newest-first or
 * largest-first `sort` on a copy, and `slice(0, n)`.
 */
module Ledger {
  import opened Wrappers

  /** The four statuses a transaction passes through: pending, then approved or rejected, then paid. */
  datatype Status = Pending | Approved | Rejected | Paid

  /** A transaction's `type`. */
  datatype Kind = Deposit | Withdrawal

  /**
   * A transaction record. `approvals` and `rejections` hold voters' phones; a
   * record created without them reads as holding none, which is how every
   * handler and screen treats a missing list.
   */
  datatype Transaction = Transaction(
    id: string,
    kind: Kind,
    amount: real,
    description: string,
    status: Status,
    createdBy: string,
    createdAt: int,
    approvals: seq<string>,
    rejections: seq<string>,
    rejectedBy: Option<string>,
    approvedAt: Option<int>,
    rejectedAt: Option<int>,
    rejectionReason: Option<string>)

  datatype Member = Member(id: string, name: string, phone: string, isAdmin: bool)

  datatype Group = Group(
    id: string,
    name: string,
    code: string,
    approvalThreshold: int,
    members: seq<Member>,
    transactions: seq<Transaction>,
    createdAt: int,
    createdBy: string)

  /** The status as the JSON text the screens compare against. */
  function StatusName(s: Status): (r: string)
    ensures |r| >= 4
  {
    match s
    case Pending => "pending"
    case Approved => "approved"
    case Rejected => "rejected"
    case Paid => "paid"
  }

  /** Distinct statuses have distinct names, so comparing names compares statuses. */
  lemma StatusNameInjective(a: Status, b: Status)
    ensures StatusName(a) == StatusName(b) <==> a == b
  {
    if a != b {
      assert StatusName(a)[0] != StatusName(b)[0] || StatusName(a)[1] != StatusName(b)[1];
    }
  }

  // ---------------------------------------------------------------- filter

  /** `s.filter(p)`. */
  function Filter<T>(s: seq<T>, p: T -> bool): (r: seq<T>)
    ensures |r| <= |s|
    ensures forall i :: 0 <= i < |r| ==> p(r[i])
  {
    if s == [] then [] else (if p(s[0]) then [s[0]] else []) + Filter(s[1..], p)
  }

  /** `r` is `s` with some elements deleted: the order-preserving sublist relation. */
  predicate Sublist<T(==)>(r: seq<T>, s: seq<T>)
    decreases |s|
  {
    if r == [] then true
    else if s == [] then false
    else (r[0] == s[0] && Sublist(r[1..], s[1..])) || Sublist(r, s[1..])
  }

  /** A filter keeps its input's order. */
  lemma {:induction false} FilterSublist<T>(s: seq<T>, p: T -> bool)
    ensures Sublist(Filter(s, p), s)
    decreases |s|
  {
    if s != [] {
      FilterSublist(s[1..], p);
      var rest := Filter(s[1..], p);
      if p(s[0]) {
        assert Filter(s, p) == [s[0]] + rest;
        assert (Filter(s, p))[1..] == rest;
      } else {
        assert Filter(s, p) == rest;
      }
    }
  }

  /** A filter keeps every occurrence of each element that passes the test, and none that fail it. */
  lemma {:induction false} FilterMultiset<T>(s: seq<T>, p: T -> bool, x: T)
    ensures multiset(Filter(s, p))[x] == if p(x) then multiset(s)[x] else 0
    decreases |s|
  {
    if s != [] {
      FilterMultiset(s[1..], p, x);
      assert s == [s[0]] + s[1..];
      assert multiset(s) == multiset([s[0]]) + multiset(s[1..]);
    }
  }

  /** Membership in a filter's result: in the input and passing the test. */
  lemma FilterMember<T>(s: seq<T>, p: T -> bool, x: T)
    ensures x in Filter(s, p) <==> x in s && p(x)
  {
    FilterMultiset(s, p, x);
    assert x in Filter(s, p) <==> multiset(Filter(s, p))[x] > 0;
    assert x in s <==> multiset(s)[x] > 0;
  }

  /** Membership in a filtered list, for every value at once. */
  lemma FilterMemberAll<T>(s: seq<T>, p: T -> bool)
    ensures forall x :: x in Filter(s, p) <==> x in s && p(x)
  {
    forall x ensures x in Filter(s, p) <==> x in s && p(x) {
      FilterMember(s, p, x);
    }
  }

  /** Filtering a concatenation filters each part. */
  lemma {:induction false} FilterAppend<T>(a: seq<T>, b: seq<T>, p: T -> bool)
    ensures Filter(a + b, p) == Filter(a, p) + Filter(b, p)
    decreases |a|
  {
    if a != [] {
      assert (a + b)[1..] == a[1..] + b;
      FilterAppend(a[1..], b, p);
    } else {
      assert a + b == b;
    }
  }

  /** Filtering twice is filtering once with both tests. */
  lemma {:induction false} FilterFilter<T>(s: seq<T>, p: T -> bool, q: T -> bool, both: T -> bool)
    requires forall x :: both(x) == (p(x) && q(x))
    ensures Filter(Filter(s, p), q) == Filter(s, both)
    decreases |s|
  {
    if s != [] {
      FilterFilter(s[1..], p, q, both);
      var head := if p(s[0]) then [s[0]] else [];
      FilterAppend(head, Filter(s[1..], p), q);
    }
  }

  /** Filters with tests that agree on every element of the list give the same result. */
  lemma {:induction false} FilterExt<T>(s: seq<T>, p: T -> bool, q: T -> bool)
    requires forall i :: 0 <= i < |s| ==> p(s[i]) == q(s[i])
    ensures Filter(s, p) == Filter(s, q)
    decreases |s|
  {
    if s != [] {
      assert forall i :: 0 <= i < |s[1..]| ==> s[1..][i] == s[i + 1];
      FilterExt(s[1..], p, q);
    }
  }

  /** `s.findIndex(p)`, with `-1` as `None`: the first position whose element passes the test. */
  function FirstIndex<T>(s: seq<T>, p: T -> bool): (r: Option<nat>)
    ensures r.None? <==> forall i :: 0 <= i < |s| ==> !p(s[i])
    ensures r.Some? ==> r.value < |s| && p(s[r.value]) && forall i :: 0 <= i < r.value ==> !p(s[i])
  {
    if s == [] then None
    else if p(s[0]) then Some(0)
    else match FirstIndex(s[1..], p)
      case None => None
      case Some(k) => Some(k + 1)
  }

  /** The test `t => t.status === st`. */
  function StatusIs(st: Status): Transaction -> bool {
    (t: Transaction) => t.status == st
  }

  /** `s.filter(t => t.status === st).length`. */
  function CountStatus(s: seq<Transaction>, st: Status): nat {
    |Filter(s, StatusIs(st))|
  }

  /** Every transaction has exactly one of the four statuses, so the four counts add up to the list's length. */
  lemma {:induction false} StatusCountsPartition(s: seq<Transaction>)
    ensures CountStatus(s, Pending) + CountStatus(s, Approved) + CountStatus(s, Rejected) + CountStatus(s, Paid) == |s|
    decreases |s|
  {
    if s != [] {
      StatusCountsPartition(s[1..]);
      CountStatusCons(s, Pending);
      CountStatusCons(s, Approved);
      CountStatusCons(s, Rejected);
      CountStatusCons(s, Paid);
    }
  }

  /** The first transaction counts once, under its own status. */
  lemma CountStatusCons(s: seq<Transaction>, st: Status)
    requires s != []
    ensures CountStatus(s, st) == (if s[0].status == st then 1 else 0) + CountStatus(s[1..], st)
  {
  }

  // ---------------------------------------------------------------- sums

  /** What a transaction adds to a balance: a deposit its amount, any other type minus its amount. */
  function Signed(t: Transaction): real {
    if t.kind == Deposit then t.amount else -t.amount
  }

  /** `s.reduce((sum, t) => sum + (t.type === 'deposit' ? t.amount : -t.amount), 0)`. */
  function Net(s: seq<Transaction>): real {
    if s == [] then 0.0 else Signed(s[0]) + Net(s[1..])
  }

  /** `s.reduce((sum, t) => sum + t.amount, 0)`. */
  function Total(s: seq<Transaction>): real {
    if s == [] then 0.0 else s[0].amount + Total(s[1..])
  }

  predicate IsDeposit(t: Transaction) {
    t.kind == Deposit
  }

  predicate IsNotDeposit(t: Transaction) {
    t.kind != Deposit
  }

  predicate IsWithdrawal(t: Transaction) {
    t.kind == Withdrawal
  }

  lemma {:induction false} NetAppend(a: seq<Transaction>, b: seq<Transaction>)
    ensures Net(a + b) == Net(a) + Net(b)
    decreases |a|
  {
    if a != [] {
      assert (a + b)[1..] == a[1..] + b;
      NetAppend(a[1..], b);
    } else {
      assert a + b == b;
    }
  }

  lemma {:induction false} TotalAppend(a: seq<Transaction>, b: seq<Transaction>)
    ensures Total(a + b) == Total(a) + Total(b)
    decreases |a|
  {
    if a != [] {
      assert (a + b)[1..] == a[1..] + b;
      TotalAppend(a[1..], b);
    } else {
      assert a + b == b;
    }
  }

  /** The signed sum is the deposits' total minus the total of everything else. */
  lemma {:induction false} NetIsDepositsMinusOthers(s: seq<Transaction>)
    ensures Net(s) == Total(Filter(s, IsDeposit)) - Total(Filter(s, IsNotDeposit))
    decreases |s|
  {
    if s != [] {
      NetIsDepositsMinusOthers(s[1..]);
      var d := if IsDeposit(s[0]) then [s[0]] else [];
      var o := if !IsDeposit(s[0]) then [s[0]] else [];
      TotalAppend(d, Filter(s[1..], IsDeposit));
      TotalAppend(o, Filter(s[1..], IsNotDeposit));
    }
  }

  /** When no element passes both tests, the signed sum over those passing either is the sum of the two. */
  lemma {:induction false} NetFilterUnion(s: seq<Transaction>, p: Transaction -> bool, q: Transaction -> bool,
                                          either: Transaction -> bool)
    requires forall x :: either(x) == (p(x) || q(x))
    requires forall x :: !(p(x) && q(x))
    ensures Net(Filter(s, either)) == Net(Filter(s, p)) + Net(Filter(s, q))
    decreases |s|
  {
    if s != [] {
      NetFilterUnion(s[1..], p, q, either);
      NetAppend(if either(s[0]) then [s[0]] else [], Filter(s[1..], either));
      NetAppend(if p(s[0]) then [s[0]] else [], Filter(s[1..], p));
      NetAppend(if q(s[0]) then [s[0]] else [], Filter(s[1..], q));
    }
  }

  /** The test `t => keyOf(t) === k`. */
  function KeyIs<K(==)>(keyOf: Transaction -> K, k: K): Transaction -> bool {
    (t: Transaction) => keyOf(t) == k
  }

  /** The test `t => ks.includes(keyOf(t))`. */
  function KeyIn<K(==)>(keyOf: Transaction -> K, ks: seq<K>): Transaction -> bool {
    (t: Transaction) => keyOf(t) in ks
  }

  /** The signed sums of the transactions under each key of `ks`, added up in order. */
  function KeyedSum<K(==)>(s: seq<Transaction>, keyOf: Transaction -> K, ks: seq<K>): real
    decreases |ks|
  {
    if ks == [] then 0.0
    else KeyedSum(s, keyOf, ks[..|ks| - 1]) + Net(Filter(s, KeyIs(keyOf, ks[|ks| - 1])))
  }

  /** Extending the keys by one adds that key's signed sum. */
  lemma KeyedSumSnoc<K>(s: seq<Transaction>, keyOf: Transaction -> K, ks: seq<K>, m: nat)
    requires m < |ks|
    ensures KeyedSum(s, keyOf, ks[..m + 1]) == KeyedSum(s, keyOf, ks[..m]) + Net(Filter(s, KeyIs(keyOf, ks[m])))
  {
    assert ks[..m + 1][..m] == ks[..m];
  }

  /** How many times `k` occurs in `ks`. */
  function Occurrences<K(==)>(ks: seq<K>, k: K): (n: nat)
    ensures n == multiset(ks)[k]
    decreases |ks|
  {
    if ks == [] then 0
    else
      assert ks == ks[..|ks| - 1] + [ks[|ks| - 1]];
      Occurrences(ks[..|ks| - 1], k) + (if ks[|ks| - 1] == k then 1 else 0)
  }

  /** `x` added up `n` times. */
  function Copies(n: nat, x: real): real {
    if n == 0 then 0.0 else Copies(n - 1, x) + x
  }

  /** For one transaction, the keyed sum counts its signed amount once per occurrence of its key. */
  lemma {:induction false} KeyedSumSingle<K>(t: Transaction, keyOf: Transaction -> K, ks: seq<K>)
    ensures KeyedSum([t], keyOf, ks) == Copies(Occurrences(ks, keyOf(t)), Signed(t))
    decreases |ks|
  {
    if ks != [] {
      KeyedSumSingle(t, keyOf, ks[..|ks| - 1]);
      NetSingleKey(t, keyOf, ks[|ks| - 1]);
    }
  }

  lemma NetSingleKey<K>(t: Transaction, keyOf: Transaction -> K, k: K)
    ensures Net(Filter([t], KeyIs(keyOf, k))) == if keyOf(t) == k then Signed(t) else 0.0
  {
    assert Filter([t], KeyIs(keyOf, k)) == if keyOf(t) == k then [t] else [];
  }

  predicate Distinct<K(==)>(ks: seq<K>) {
    forall i, j :: 0 <= i < j < |ks| ==> ks[i] != ks[j]
  }

  /** Over distinct keys, the per-key sums add up to the sum over the transactions with any of those keys. */
  lemma {:induction false} KeyedSumDistinct<K>(s: seq<Transaction>, keyOf: Transaction -> K, ks: seq<K>)
    requires Distinct(ks)
    ensures KeyedSum(s, keyOf, ks) == Net(Filter(s, KeyIn(keyOf, ks)))
    decreases |ks|
  {
    if ks == [] {
      FilterExt(s, KeyIn(keyOf, ks), (t: Transaction) => false);
      FilterNone(s, (t: Transaction) => false);
    } else {
      var init, last := ks[..|ks| - 1], ks[|ks| - 1];
      KeyedSumDistinct(s, keyOf, init);
      assert forall x :: KeyIn(keyOf, ks)(x) == (KeyIn(keyOf, init)(x) || KeyIs(keyOf, last)(x)) by {
        assert ks == init + [last];
      }
      NetFilterUnion(s, KeyIn(keyOf, init), KeyIs(keyOf, last), KeyIn(keyOf, ks));
    }
  }

  lemma {:induction false} FilterNone<T>(s: seq<T>, p: T -> bool)
    requires forall x :: !p(x)
    ensures Filter(s, p) == []
    decreases |s|
  {
    if s != [] {
      FilterNone(s[1..], p);
    }
  }

  /** A filter every element passes keeps the whole list. */
  lemma {:induction false} FilterAll<T>(s: seq<T>, p: T -> bool)
    requires forall i :: 0 <= i < |s| ==> p(s[i])
    ensures Filter(s, p) == s
    decreases |s|
  {
    if s != [] {
      FilterAll(s[1..], p);
    }
  }

  // ---------------------------------------------------------------- sort and slice

  predicate SortedDesc<T>(s: seq<T>, key: T -> real) {
    forall i, j :: 0 <= i < j < |s| ==> key(s[i]) >= key(s[j])
  }

  /** Places `x` before the first element whose key is not larger, so equal keys keep their order. */
  function Insert<T>(x: T, s: seq<T>, key: T -> real): (r: seq<T>)
    ensures |r| == |s| + 1
  {
    if s == [] || key(x) >= key(s[0]) then [x] + s else [s[0]] + Insert(x, s[1..], key)
  }

  /** `[...s].sort((a, b) => key(b) - key(a))`: JavaScript's stable sort, largest key first. */
  function SortDesc<T>(s: seq<T>, key: T -> real): (r: seq<T>)
    ensures |r| == |s|
  {
    if s == [] then [] else Insert(s[0], SortDesc(s[1..], key), key)
  }

  lemma {:induction false} InsertFacts<T>(x: T, s: seq<T>, key: T -> real)
    requires SortedDesc(s, key)
    ensures SortedDesc(Insert(x, s, key), key)
    ensures multiset(Insert(x, s, key)) == multiset{x} + multiset(s)
  {
    InsertSorted(x, s, key);
    InsertMultiset(x, s, key);
  }

  lemma {:induction false} InsertMultiset<T>(x: T, s: seq<T>, key: T -> real)
    ensures multiset(Insert(x, s, key)) == multiset{x} + multiset(s)
    decreases |s|
  {
    if s != [] && key(x) < key(s[0]) {
      InsertMultiset(x, s[1..], key);
      assert s == [s[0]] + s[1..];
    }
  }

  lemma {:induction false} InsertElems<T>(x: T, s: seq<T>, key: T -> real)
    ensures forall j :: 0 <= j < |Insert(x, s, key)| ==> Insert(x, s, key)[j] == x || Insert(x, s, key)[j] in s
    decreases |s|
  {
    if s != [] && key(x) < key(s[0]) {
      InsertElems(x, s[1..], key);
    }
  }

  lemma {:induction false} InsertSorted<T>(x: T, s: seq<T>, key: T -> real)
    requires SortedDesc(s, key)
    ensures SortedDesc(Insert(x, s, key), key)
    decreases |s|
  {
    if s != [] && key(x) < key(s[0]) {
      var r := Insert(x, s[1..], key);
      InsertSorted(x, s[1..], key);
      InsertElems(x, s[1..], key);
      forall j | 0 <= j < |r| ensures key(s[0]) >= key(r[j]) {
        if r[j] != x {
          var k :| 0 <= k < |s[1..]| && s[1..][k] == r[j];
          assert s[k + 1] == r[j];
        }
      }
    }
  }

  /** The sorted copy is ordered largest first and holds exactly the input's elements. */
  lemma {:induction false} SortDescFacts<T>(s: seq<T>, key: T -> real)
    ensures SortedDesc(SortDesc(s, key), key)
    ensures multiset(SortDesc(s, key)) == multiset(s)
    decreases |s|
  {
    if s != [] {
      SortDescFacts(s[1..], key);
      InsertFacts(s[0], SortDesc(s[1..], key), key);
      assert s == [s[0]] + s[1..];
    }
  }

  /** `s.slice(0, n)`. */
  function Take<T>(s: seq<T>, n: nat): (r: seq<T>)
    ensures |r| == if |s| <= n then |s| else n
    ensures r == s[..|r|]
  {
    if |s| <= n then s else s[..n]
  }

  /**
   * The first `n` of a largest-first sort are the `n` largest: each of them has
   * a key at least as large as every element left behind, and they come from `s`.
   */
  lemma TopIsLargest<T>(s: seq<T>, key: T -> real, n: nat)
    ensures |Take(SortDesc(s, key), n)| == if |s| <= n then |s| else n
    ensures SortedDesc(Take(SortDesc(s, key), n), key)
    ensures multiset(Take(SortDesc(s, key), n)) <= multiset(s)
    ensures forall i, j :: 0 <= i < |Take(SortDesc(s, key), n)| <= j < |s| ==>
              key(Take(SortDesc(s, key), n)[i]) >= key(SortDesc(s, key)[j])
  {
    var r := SortDesc(s, key);
    SortDescFacts(s, key);
    var t := Take(r, n);
    assert r == t + r[|t|..];
    assert multiset(r) == multiset(t) + multiset(r[|t|..]);
  }
}

/** The colours the screens paint statuses with. */
module Palette {
  const Green := "#34C759"
  const Orange := "#FF9500"
  const Red := "#FF3B30"
  const Blue := "#007AFF"
  const Grey := "#666"

  /** The colours are pairwise different. */
  lemma ColoursDiffer()
    ensures Green != Orange && Green != Red && Green != Blue && Green != Grey
    ensures Orange != Red && Orange != Blue && Orange != Grey
    ensures Red != Blue && Red != Grey && Blue != Grey
  {
    assert Green[1] == '3' && Orange[1] == 'F' && Red[1] == 'F' && Blue[1] == '0' && |Grey| == 4;
    assert Orange[3] == '9' && Red[3] == '3';
  }
}
