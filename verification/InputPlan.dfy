/** Deterministic candidate ordering: rank descending, then node number ascending, stably. */
module InputPlan {

  const CANDIDATE_CAP: nat := 16

  /** A candidate's sort key and everything else it carries. */
  datatype Candidate<T> = Candidate(fd: int, rank: int, number: nat, prepared: T)

  /** Does `a` have to come after `b`? The inner loop's shift condition. */
  predicate Worse<T>(a: Candidate<T>, b: Candidate<T>) {
    a.rank < b.rank || (a.rank == b.rank && a.number > b.number)
  }

  /** Insert `key` behind everything that is not worse than it, looking from the back. */
  function Insert<T>(s: seq<Candidate<T>>, key: Candidate<T>): (r: seq<Candidate<T>>)
    ensures |r| == |s| + 1
  {
    if s == [] || !Worse(s[|s| - 1], key) then s + [key]
    else Insert(s[..|s| - 1], key) + [s[|s| - 1]]
  }

  function Sort<T>(s: seq<Candidate<T>>): (r: seq<Candidate<T>>)
    ensures |r| == |s|
  {
    if s == [] then [] else Insert(Sort(s[..|s| - 1]), s[|s| - 1])
  }

  ghost predicate Ordered<T>(s: seq<Candidate<T>>) {
    forall i, j | 0 <= i < j < |s| :: !Worse(s[i], s[j])
  }

  /** The candidates with one particular key, in order: what stability keeps. */
  function Same<T>(s: seq<Candidate<T>>, rank: int, number: nat): seq<Candidate<T>> {
    if s == [] then []
    else Same(s[..|s| - 1], rank, number) +
         if s[|s| - 1].rank == rank && s[|s| - 1].number == number then [s[|s| - 1]] else []
  }

  lemma {:induction false} InsertMembers<T>(s: seq<Candidate<T>>, key: Candidate<T>, i: nat)
    requires i <= |s|
    ensures Insert(s, key)[i] == key || Insert(s, key)[i] in s
  {
    if s != [] && Worse(s[|s| - 1], key) && i < |s| {
      InsertMembers(s[..|s| - 1], key, i);
      assert forall c | c in s[..|s| - 1] :: c in s;
    }
  }

  lemma {:induction false} InsertOrdered<T>(s: seq<Candidate<T>>, key: Candidate<T>)
    requires Ordered(s)
    ensures Ordered(Insert(s, key))
  {
    if s != [] && Worse(s[|s| - 1], key) {
      var front, last := s[..|s| - 1], s[|s| - 1];
      InsertOrdered(front, key);
      forall i | 0 <= i < |s|
        ensures !Worse(Insert(front, key)[i], last)
      {
        InsertMembers(front, key, i);
        if Insert(front, key)[i] in front {
          var k :| 0 <= k < |front| && front[k] == Insert(front, key)[i];
          assert front[k] == s[k];
        }
      }
    }
  }

  lemma {:induction false} InsertSame<T>(s: seq<Candidate<T>>, key: Candidate<T>, rank: int, number: nat)
    ensures Same(Insert(s, key), rank, number) ==
            Same(s, rank, number) + if key.rank == rank && key.number == number then [key] else []
  {
    if s == [] || !Worse(s[|s| - 1], key) {
      assert (s + [key])[..|s|] == s;
    } else {
      var front, last := s[..|s| - 1], s[|s| - 1];
      InsertSame(front, key, rank, number);
      assert (Insert(front, key) + [last])[..|s|] == Insert(front, key);
    }
  }

  /** Sorting yields an ordered list with every key's candidates unchanged and in their original order. */
  lemma {:induction false} SortStable<T>(s: seq<Candidate<T>>, rank: int, number: nat)
    ensures Ordered(Sort(s))
    ensures Same(Sort(s), rank, number) == Same(s, rank, number)
  {
    if s != [] {
      SortStable(s[..|s| - 1], rank, number);
      InsertOrdered(Sort(s[..|s| - 1]), s[|s| - 1]);
      InsertSame(Sort(s[..|s| - 1]), s[|s| - 1], rank, number);
    }
  }

  /** The plan's order: rank descending, and number ascending among equal ranks. */
  lemma PlanOrder<T>(s: seq<Candidate<T>>, i: nat, j: nat)
    requires i < j < |s|
    ensures Sort(s)[i].rank > Sort(s)[j].rank || (Sort(s)[i].rank == Sort(s)[j].rank && Sort(s)[i].number <= Sort(s)[j].number)
  {
    SortStable(s, 0, 0);
    assert !Worse(Sort(s)[i], Sort(s)[j]);
  }

  lemma {:induction false} SortPermutes<T>(s: seq<Candidate<T>>)
    ensures multiset(Sort(s)) == multiset(s)
  {
    if s != [] {
      SortPermutes(s[..|s| - 1]);
      InsertPermutes(Sort(s[..|s| - 1]), s[|s| - 1]);
      assert s == s[..|s| - 1] + [s[|s| - 1]];
    }
  }

  lemma {:induction false} InsertPermutes<T>(s: seq<Candidate<T>>, key: Candidate<T>)
    ensures multiset(Insert(s, key)) == multiset(s) + multiset{key}
  {
    if s != [] && Worse(s[|s| - 1], key) {
      InsertPermutes(s[..|s| - 1], key);
      assert s == s[..|s| - 1] + [s[|s| - 1]];
    }
  }

  /** The candidates hold distinct descriptors, none of them in `taken`. */
  ghost predicate FreshFds<T>(s: seq<Candidate<T>>, taken: set<int>) {
    && (forall i | 0 <= i < |s| :: s[i].fd >= 0 && s[i].fd !in taken)
    && (forall i, j | 0 <= i < j < |s| :: s[i].fd != s[j].fd)
  }

  function Fds<T>(s: seq<Candidate<T>>): set<int> {
    set i | 0 <= i < |s| :: s[i].fd
  }

  lemma {:induction false} InsertFresh<T>(s: seq<Candidate<T>>, key: Candidate<T>, taken: set<int>)
    requires FreshFds(s + [key], taken)
    ensures FreshFds(Insert(s, key), taken)
  {
    if s != [] && Worse(s[|s| - 1], key) {
      var front, last := s[..|s| - 1], s[|s| - 1];
      assert forall i | 0 <= i < |s| :: (s + [key])[i] == s[i];
      assert (s + [key])[|s|] == key;
      InsertFresh(front, key, taken);
      forall i | 0 <= i < |s|
        ensures Insert(front, key)[i].fd != last.fd
      {
        InsertMembers(front, key, i);
        if Insert(front, key)[i] in front {
          var k :| 0 <= k < |front| && front[k] == Insert(front, key)[i];
          assert front[k] == s[k];
        }
      }
    }
  }

  /** Sorting keeps the set of descriptors. */
  lemma SortFds<T>(s: seq<Candidate<T>>)
    ensures Fds(Sort(s)) == Fds(s)
  {
    SortPermutes(s);
    PermutedFds(s, Sort(s));
    PermutedFds(Sort(s), s);
  }

  lemma PermutedFds<T>(a: seq<Candidate<T>>, b: seq<Candidate<T>>)
    requires multiset(a) == multiset(b)
    ensures Fds(a) <= Fds(b)
  {
    forall fd | fd in Fds(a)
      ensures fd in Fds(b)
    {
      var i :| 0 <= i < |a| && a[i].fd == fd;
      assert a[i] in multiset(b);
      var k :| 0 <= k < |b| && b[k] == a[i];
    }
  }

  /** Sorting keeps the descriptors distinct and fresh. */
  lemma {:induction false} SortFresh<T>(s: seq<Candidate<T>>, taken: set<int>)
    requires FreshFds(s, taken)
    ensures FreshFds(Sort(s), taken)
  {
    if s != [] {
      var front, last := s[..|s| - 1], s[|s| - 1];
      SortFresh(front, taken);
      SortFds(front);
      LastApart(s, Sort(front), taken);
      InsertFresh(Sort(front), last, taken);
    }
  }

  lemma LastApart<T>(s: seq<Candidate<T>>, sorted: seq<Candidate<T>>, taken: set<int>)
    requires s != [] && FreshFds(s, taken) && FreshFds(sorted, taken) && Fds(sorted) == Fds(s[..|s| - 1])
    ensures FreshFds(sorted + [s[|s| - 1]], taken)
  {
    forall i | 0 <= i < |sorted|
      ensures sorted[i].fd != s[|s| - 1].fd
    {
      assert sorted[i].fd in Fds(s[..|s| - 1]);
    }
  }

  /** The inner loop: `candidates[..i]` is sorted and the key at `i` is moved down to its place. */
  method Sink<T>(candidates: array<Candidate<T>>, i: nat)
    requires i < candidates.Length
    modifies candidates
    ensures candidates[..i + 1] == Insert(old(candidates[..i]), old(candidates[i]))
    ensures candidates[i + 1..] == old(candidates[i + 1..])
  {
    var key := candidates[i];
    var j := i;
    ghost var s := candidates[..i];
    while j > 0 && Worse(candidates[j - 1], key)
      invariant j <= i
      invariant candidates[..j] == s[..j]
      invariant candidates[j + 1..i + 1] == s[j..]
      invariant candidates[i + 1..] == old(candidates[i + 1..])
      invariant Insert(s, key) == Insert(s[..j], key) + s[j..]
    {
      assert candidates[j - 1] == s[..j][j - 1];
      assert s[..j][..j - 1] == s[..j - 1];
      assert [s[j - 1]] + s[j..] == s[j - 1..];
      candidates[j] := candidates[j - 1];
      j := j - 1;
    }
    candidates[j] := key;
    assert candidates[..i + 1] == s[..j] + [key] + s[j..];
  }

  lemma SortSnoc<T>(s: seq<Candidate<T>>, i: nat)
    requires i < |s|
    ensures Sort(s[..i + 1]) == Insert(Sort(s[..i]), s[i])
  {
    assert s[..i + 1][..i] == s[..i];
  }

  /** `_cart_input_plan`: sort in place; the result caps the count. */
  method Plan<T>(candidates: array<Candidate<T>>, count: nat) returns (planned: nat)
    requires count <= candidates.Length
    modifies candidates
    ensures candidates[..count] == Sort(old(candidates[..count]))
    ensures candidates[count..] == old(candidates[count..])
    ensures planned == if count > CANDIDATE_CAP then CANDIDATE_CAP else count
  {
    ghost var was := candidates[..];
    if count > 0 {
      var i := 1;
      assert was[..1][..0] == [] && Sort(was[..1][..0]) == [];
      while i < count
        invariant 1 <= i <= count
        invariant candidates[..i] == Sort(was[..i]) && candidates[i..] == was[i..]
      {
        SortSnoc(was, i);
        assert candidates[i] == candidates[i..][0] == was[i..][0];
        assert candidates[i + 1..] == candidates[i..][1..] && was[i + 1..] == was[i..][1..];
        Sink(candidates, i);
        i := i + 1;
      }
    }
    planned := if count > CANDIDATE_CAP then CANDIDATE_CAP else count;
  }
}
