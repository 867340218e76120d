/**
  `RetrieveCompaniesUseCase`: an administrator lists the companies, newest
  first. The list is sorted in place, and it is the stored list itself, so
  the store keeps the sorted order.
 */
module RetrieveCompanies {
  import opened ErrorService
  import opened Errors
  import opened Users
  import opened RoleService
  import opened Sequences
  import opened Companies
  import opened CompanyRepository

  // ---------------------------------------------------------------------------
  // A stable sort on an integer key, largest key first: what `Array.prototype.sort`
  // does with the comparator `key(b) - key(a)`.
  // ---------------------------------------------------------------------------

  /** The key never increases from one element to a later one. */
  predicate SortedDesc<T>(key: T -> int, xs: seq<T>) {
    forall i, j :: 0 <= i < j < |xs| ==> key(xs[i]) >= key(xs[j])
  }

  /** No element of `xs` has a key above `t`. */
  predicate NotAbove<T>(key: T -> int, xs: seq<T>, t: int) {
    forall k :: 0 <= k < |xs| ==> key(xs[k]) <= t
  }

  /** Inserts `x` in front of the first element whose key is not above its own. */
  function InsertDesc<T>(key: T -> int, x: T, xs: seq<T>): (r: seq<T>)
    ensures |r| == |xs| + 1
    decreases |xs|
  {
    if xs == [] || key(x) >= key(xs[0]) then [x] + xs
    else [xs[0]] + InsertDesc(key, x, xs[1..])
  }

  /** Insertion sort, largest key first; among equal keys the input order is kept. */
  function SortDesc<T>(key: T -> int, xs: seq<T>): (r: seq<T>)
    ensures |r| == |xs|
    decreases |xs|
  {
    if xs == [] then []
    else InsertDesc(key, xs[0], SortDesc(key, xs[1..]))
  }

  /** The test "has key `t`". */
  function KeyIs<T>(key: T -> int, t: int): T -> bool {
    (x: T) => key(x) == t
  }

  lemma {:induction false} InsertPermutes<T>(key: T -> int, x: T, xs: seq<T>)
    ensures multiset(InsertDesc(key, x, xs)) == multiset(xs) + multiset{x}
    decreases |xs|
  {
    if xs != [] && key(x) < key(xs[0]) {
      InsertPermutes(key, x, xs[1..]);
      assert xs == [xs[0]] + xs[1..];
    }
  }

  /** The sort is a permutation. */
  lemma {:induction false} SortIsPermutation<T>(key: T -> int, xs: seq<T>)
    ensures multiset(SortDesc(key, xs)) == multiset(xs)
    decreases |xs|
  {
    if xs != [] {
      SortIsPermutation(key, xs[1..]);
      InsertPermutes(key, xs[0], SortDesc(key, xs[1..]));
      assert xs == [xs[0]] + xs[1..];
    }
  }

  lemma {:induction false} InsertNotAbove<T>(key: T -> int, x: T, xs: seq<T>, t: int)
    requires key(x) <= t && NotAbove(key, xs, t)
    ensures NotAbove(key, InsertDesc(key, x, xs), t)
    decreases |xs|
  {
    if xs != [] && key(x) < key(xs[0]) {
      InsertNotAbove(key, x, xs[1..], t);
      var r := [xs[0]] + InsertDesc(key, x, xs[1..]);
      assert forall k :: 1 <= k < |r| ==> r[k] == InsertDesc(key, x, xs[1..])[k - 1];
    }
  }

  lemma {:induction false} InsertSorted<T>(key: T -> int, x: T, xs: seq<T>)
    requires SortedDesc(key, xs)
    ensures SortedDesc(key, InsertDesc(key, x, xs))
    decreases |xs|
  {
    if xs != [] && key(x) < key(xs[0]) {
      var rest := InsertDesc(key, x, xs[1..]);
      InsertSorted(key, x, xs[1..]);
      InsertNotAbove(key, x, xs[1..], key(xs[0]));
      var r := [xs[0]] + rest;
      assert forall k :: 1 <= k < |r| ==> r[k] == rest[k - 1];
    }
  }

  /** The sort puts the largest keys first. */
  lemma {:induction false} SortIsSorted<T>(key: T -> int, xs: seq<T>)
    ensures SortedDesc(key, SortDesc(key, xs))
    decreases |xs|
  {
    if xs != [] {
      SortIsSorted(key, xs[1..]);
      InsertSorted(key, xs[0], SortDesc(key, xs[1..]));
    }
  }

  lemma {:induction false} InsertOtherKey<T>(key: T -> int, x: T, xs: seq<T>, t: int)
    requires key(x) != t
    ensures Filter(InsertDesc(key, x, xs), KeyIs(key, t)) == Filter(xs, KeyIs(key, t))
    decreases |xs|
  {
    if xs == [] || key(x) >= key(xs[0]) {
      assert ([x] + xs)[1..] == xs;
    } else {
      var r := [xs[0]] + InsertDesc(key, x, xs[1..]);
      assert r[1..] == InsertDesc(key, x, xs[1..]);
      InsertOtherKey(key, x, xs[1..], t);
    }
  }

  lemma {:induction false} InsertSameKey<T>(key: T -> int, x: T, xs: seq<T>)
    ensures Filter(InsertDesc(key, x, xs), KeyIs(key, key(x))) == [x] + Filter(xs, KeyIs(key, key(x)))
    decreases |xs|
  {
    if xs == [] || key(x) >= key(xs[0]) {
      assert ([x] + xs)[1..] == xs;
    } else {
      var r := [xs[0]] + InsertDesc(key, x, xs[1..]);
      assert r[1..] == InsertDesc(key, x, xs[1..]);
      InsertSameKey(key, x, xs[1..]);
    }
  }

  /** Stability: the elements sharing any one key come out in their input order. */
  lemma {:induction false} SortIsStable<T>(key: T -> int, xs: seq<T>, t: int)
    ensures Filter(SortDesc(key, xs), KeyIs(key, t)) == Filter(xs, KeyIs(key, t))
    decreases |xs|
  {
    if xs != [] {
      SortIsStable(key, xs[1..], t);
      if key(xs[0]) == t {
        InsertSameKey(key, xs[0], SortDesc(key, xs[1..]));
      } else {
        InsertOtherKey(key, xs[0], SortDesc(key, xs[1..]), t);
      }
    }
  }

  lemma SortedTail<T>(key: T -> int, xs: seq<T>)
    requires xs != [] && SortedDesc(key, xs)
    ensures SortedDesc(key, xs[1..])
  {
    forall i, j | 0 <= i < j < |xs| - 1 ensures key(xs[1..][i]) >= key(xs[1..][j]) {
      assert xs[1..][i] == xs[i + 1] && xs[1..][j] == xs[j + 1];
    }
  }

  /** An input already ordered largest key first is left as it is. */
  lemma {:induction false} SortKeepsSorted<T>(key: T -> int, xs: seq<T>)
    requires SortedDesc(key, xs)
    ensures SortDesc(key, xs) == xs
    decreases |xs|
  {
    if xs != [] {
      var tail := xs[1..];
      SortedTail(key, xs);
      SortKeepsSorted(key, tail);
      assert SortDesc(key, xs) == InsertDesc(key, xs[0], tail);
      if tail != [] {
        assert tail[0] == xs[1];
        assert key(xs[0]) >= key(tail[0]);
      }
      assert InsertDesc(key, xs[0], tail) == [xs[0]] + tail;
      assert [xs[0]] + tail == xs;
    }
  }

  lemma SortOfThree<T>(key: T -> int, a: T, b: T, c: T)
    ensures SortDesc(key, [a, b, c]) == InsertDesc(key, a, InsertDesc(key, b, [c]))
  {
    assert [c][1..] == [];
    assert SortDesc(key, [c]) == [c];
    assert [b, c][1..] == [c];
    assert [a, b, c][1..] == [b, c];
  }

  lemma InsertIntoOne<T>(key: T -> int, b: T, c: T)
    ensures key(b) >= key(c) ==> InsertDesc(key, b, [c]) == [b, c]
    ensures key(b) < key(c) ==> InsertDesc(key, b, [c]) == [c, b]
  {
    assert [c][1..] == [];
  }

  lemma InsertIntoTwo<T>(key: T -> int, x: T, p: T, q: T)
    requires key(p) > key(q)
    ensures key(x) >= key(p) ==> InsertDesc(key, x, [p, q]) == [x, p, q]
    ensures key(p) > key(x) >= key(q) ==> InsertDesc(key, x, [p, q]) == [p, x, q]
    ensures key(q) > key(x) ==> InsertDesc(key, x, [p, q]) == [p, q, x]
  {
    if key(x) < key(p) {
      assert [p, q][1..] == [q];
      InsertIntoOne(key, x, q);
      assert InsertDesc(key, x, [p, q]) == [p] + InsertDesc(key, x, [q]);
    }
  }

  // ---------------------------------------------------------------------------
  // `sortCompaniesByDescCreationDate`
  // ---------------------------------------------------------------------------

  /** The sort key: `createdAt`, as the `getTime()` value. */
  function CreationDate(c: Company): int {
    c.createdAt
  }

  /** The stored companies, newest first, equal creation dates in stored order. */
  function SortCompaniesByDescCreationDate(cs: seq<Company>): (r: seq<Company>)
    ensures |r| == |cs|
  {
    SortDesc(CreationDate, cs)
  }

  /**
    The sorted list is a permutation of the stored one, newest first, and
    companies created at the same time keep their stored relative order.
   */
  lemma CompaniesNewestFirst(cs: seq<Company>)
    ensures multiset(SortCompaniesByDescCreationDate(cs)) == multiset(cs)
    ensures forall i, j :: 0 <= i < j < |cs| ==>
              SortCompaniesByDescCreationDate(cs)[i].createdAt >= SortCompaniesByDescCreationDate(cs)[j].createdAt
    ensures forall t :: Filter(SortCompaniesByDescCreationDate(cs), KeyIs(CreationDate, t)) == Filter(cs, KeyIs(CreationDate, t))
  {
    SortIsPermutation(CreationDate, cs);
    SortIsSorted(CreationDate, cs);
    forall t ensures Filter(SortCompaniesByDescCreationDate(cs), KeyIs(CreationDate, t)) == Filter(cs, KeyIs(CreationDate, t)) {
      SortIsStable(CreationDate, cs, t);
    }
  }

  /** A stored list already newest first is left in place. */
  lemma SortedCompaniesStay(cs: seq<Company>)
    requires forall i, j :: 0 <= i < j < |cs| ==> cs[i].createdAt >= cs[j].createdAt
    ensures SortCompaniesByDescCreationDate(cs) == cs
  {
    SortKeepsSorted(CreationDate, cs);
  }

  /** Three companies created at T1 < T2 < T3 come out as [T3, T2, T1] whatever their stored order. */
  lemma ThreeCompaniesNewestFirst(c1: Company, c2: Company, c3: Company)
    requires c1.createdAt < c2.createdAt < c3.createdAt
    ensures SortCompaniesByDescCreationDate([c1, c2, c3]) == [c3, c2, c1]
    ensures SortCompaniesByDescCreationDate([c1, c3, c2]) == [c3, c2, c1]
    ensures SortCompaniesByDescCreationDate([c2, c1, c3]) == [c3, c2, c1]
    ensures SortCompaniesByDescCreationDate([c2, c3, c1]) == [c3, c2, c1]
    ensures SortCompaniesByDescCreationDate([c3, c1, c2]) == [c3, c2, c1]
    ensures SortCompaniesByDescCreationDate([c3, c2, c1]) == [c3, c2, c1]
  {
    var k := CreationDate;
    SortOfThree(k, c1, c2, c3); InsertIntoOne(k, c2, c3); InsertIntoTwo(k, c1, c3, c2);
    SortOfThree(k, c1, c3, c2); InsertIntoOne(k, c3, c2);
    SortOfThree(k, c2, c1, c3); InsertIntoOne(k, c1, c3); InsertIntoTwo(k, c2, c3, c1);
    SortOfThree(k, c2, c3, c1); InsertIntoOne(k, c3, c1);
    SortOfThree(k, c3, c1, c2); InsertIntoOne(k, c1, c2); InsertIntoTwo(k, c3, c2, c1);
    SortOfThree(k, c3, c2, c1); InsertIntoOne(k, c2, c1);
  }

  class RetrieveCompaniesUseCase {
    const companyRepository: InMemoryCompanyRepository

    constructor(companyRepository: InMemoryCompanyRepository)
      ensures this.companyRepository == companyRepository
    {
      this.companyRepository := companyRepository;
    }

    /**
      `execute`: the administrator check, then the stored list sorted newest
      first; the sort reorders the stored list itself.
     */
    method Execute(admin: User) returns (r: Result<seq<Company>, Error>)
      modifies companyRepository.storage
      ensures !admin.Admin? ==> r == Err(ErrorNotAuthorizedToRetrieveCompanies) && unchanged(companyRepository.storage)
      ensures admin.Admin? ==>
                && r == Ok(SortCompaniesByDescCreationDate(old(companyRepository.storage.companies)))
                && companyRepository.storage.companies == r.value
      ensures companyRepository.storage.drivingSchools == old(companyRepository.storage.drivingSchools)
    {
      if !IsAdmin(admin) {
        return Err(ErrorNotAuthorizedToRetrieveCompanies);
      }
      var companies := companyRepository.GetAll();
      companies := SortCompaniesByDescCreationDate(companies);
      companyRepository.DefineCompanies(companies);
      r := Ok(companies);
    }
  }
}
