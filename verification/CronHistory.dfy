/**
  History limits: which finished pods are deleted, and which are kept.
 */
module CronHistory {
  import opened CronTime
  import opened CronJobs

  /** The order of the history: by start time, pods without one first. */
  predicate Less(a: Pod, b: Pod) {
    if a.startTime.None? then b.startTime.Some?
    else b.startTime.Some? && a.startTime.value < b.startTime.value
  }

  /** Sorting by this order is well defined: a strict weak order. */
  lemma LessIsStrictWeakOrder(a: Pod, b: Pod, c: Pod)
    ensures !Less(a, a) && !(Less(a, b) && Less(b, a))
    ensures Less(a, b) && Less(b, c) ==> Less(a, c)
    ensures !Less(a, b) && !Less(b, a) && !Less(b, c) && !Less(c, b) ==> !Less(a, c) && !Less(c, a)
    ensures a.startTime.None? && b.startTime.Some? ==> Less(a, b)
  {
  }

  predicate Sorted(pods: seq<Pod>) {
    forall i, j :: 0 <= i < j < |pods| ==> !Less(pods[j], pods[i])
  }

  /** Sorts in place; only sortedness and permutation are promised, as of any sort. */
  method SortByStartTime(pods: array<Pod>)
    modifies pods
    ensures Sorted(pods[..]) && multiset(pods[..]) == multiset(old(pods[..]))
  {
    for i := 0 to pods.Length
      invariant multiset(pods[..]) == multiset(old(pods[..]))
      invariant OldestUpTo(pods[..], i)
    {
      var least := LeastFrom(pods, i);
      KeepOldest(pods[..], i, least);
      pods[i], pods[least] := pods[least], pods[i];
    }
  }

  /** The first i pods are in order, and not newer than any later pod. */
  ghost predicate OldestUpTo(s: seq<Pod>, i: nat) {
    i <= |s| && forall j, k :: 0 <= j < i && j < k < |s| ==> !Less(s[k], s[j])
  }

  lemma KeepOldest(s: seq<Pod>, i: nat, least: nat)
    requires OldestUpTo(s, i) && i <= least < |s| && forall x :: i <= x < |s| ==> !Less(s[x], s[least])
    ensures OldestUpTo(s[i := s[least]][least := s[i]], i + 1)
  {
    var t := s[i := s[least]][least := s[i]];
    forall j, k | 0 <= j < i + 1 && j < k < |t| ensures !Less(t[k], t[j]) {
    }
  }

  method LeastFrom(pods: array<Pod>, i: nat) returns (least: nat)
    requires i < pods.Length
    ensures i <= least < pods.Length && forall x :: i <= x < pods.Length ==> !Less(pods[x], pods[least])
  {
    least := i;
    for k := i to pods.Length
      invariant i <= least < pods.Length
      invariant forall x :: i <= x < k ==> !Less(pods[x], pods[least])
    {
      if Less(pods[k], pods[least]) {
        least := k;
      }
    }
  }

  /** How many of n pods the deletion loop reaches, with its bound `i <= n - limit`. */
  function PruneCount(n: nat, limit: int): nat {
    if limit <= 0 then n else if n >= limit then n - limit + 1 else 0
  }

  /** How many the documented meaning ("the number of finished jobs to retain") asks for. */
  function ExcessCount(n: nat, limit: nat): nat {
    if n > limit then n - limit else 0
  }

  /** `gone` are k of the pods, none of them newer than a pod that stays. */
  ghost predicate AreOldest(pods: seq<Pod>, k: nat, gone: set<nat>) {
    && gone <= Names(pods) && |gone| == k
    && (forall p, q :: p in pods && q in pods && p.name in gone && q.name !in gone ==> !Less(q, p))
  }

  /** The first k pods of a sorted list are k oldest ones of the list it was sorted from. */
  lemma PrefixIsOldest(pods: seq<Pod>, sorted: seq<Pod>, k: nat)
    requires DistinctNames(pods) && Sorted(sorted) && multiset(sorted) == multiset(pods) && k <= |sorted|
    ensures AreOldest(pods, k, Names(sorted[..k]))
  {
    SamePods(pods, sorted);
    NamesCount(sorted[..k]);
    assert forall x :: 0 <= x < k ==> sorted[x] in sorted[..k];
    forall p, q | p in pods && q in pods && p.name in Names(sorted[..k]) && q.name !in Names(sorted[..k])
      ensures !Less(q, p)
    {
      var p' :| p' in sorted[..k] && p'.name == p.name;
      var i :| 0 <= i < k && sorted[i] == p';
      var j :| 0 <= j < |sorted| && sorted[j] == q;
      assert p' == p;
    }
  }

  lemma SamePods(pods: seq<Pod>, sorted: seq<Pod>)
    requires DistinctNames(pods) && multiset(sorted) == multiset(pods)
    ensures |sorted| == |pods| && DistinctNames(sorted)
    ensures forall p :: p in sorted <==> p in pods
    ensures forall p, q :: p in pods && q in pods && p.name == q.name ==> p == q
  {
    assert |multiset(sorted)| == |sorted| && |multiset(pods)| == |pods|;
    forall p ensures p in sorted <==> p in pods {
      assert p in multiset(sorted) <==> p in multiset(pods);
    }
    forall i, j | 0 <= i < j < |sorted| ensures sorted[i].name != sorted[j].name {
      if sorted[i].name == sorted[j].name {
        assert sorted[i] in pods && sorted[j] in pods;
        TwiceInSorted(sorted, i, j);
        OnceInDistinct(pods, sorted[i]);
        assert false;
      }
    }
  }

  lemma TwiceInSorted(s: seq<Pod>, i: nat, j: nat)
    requires i < j < |s| && s[i] == s[j]
    ensures multiset(s)[s[i]] >= 2
  {
    assert s == s[..i] + [s[i]] + s[i + 1..j] + [s[j]] + s[j + 1..];
  }

  lemma {:induction false} OnceInDistinct(s: seq<Pod>, p: Pod)
    requires DistinctNames(s)
    ensures multiset(s)[p] <= 1
  {
    if s != [] {
      var init, last := s[..|s| - 1], s[|s| - 1];
      assert s == init + [last];
      OnceInDistinct(init, p);
      if p == last {
        assert p !in init;
      }
    }
  }

  /** What the loop as written keeps when every delete succeeds: one pod fewer than the limit, once it is reached. */
  lemma KeptAsWritten(pods: seq<Pod>, limit: int, gone: set<nat>)
    requires DistinctNames(pods) && AreOldest(pods, PruneCount(|pods|, limit), gone)
    ensures |Names(pods) - gone|
            == if limit <= 0 then 0 else if |pods| < limit then |pods| else limit - 1
  {
    NamesCount(pods);
    assert |Names(pods) - gone| == |Names(pods)| - |gone|;
  }

  /** What the documentation asks for is kept by the bound `i < n - limit`. */
  lemma KeptAsDocumented(pods: seq<Pod>, limit: nat, gone: set<nat>)
    requires DistinctNames(pods) && AreOldest(pods, ExcessCount(|pods|, limit), gone)
    ensures |Names(pods) - gone| == if |pods| < limit then |pods| else limit
  {
    NamesCount(pods);
    assert |Names(pods) - gone| == |Names(pods)| - |gone|;
  }

  /** The history limit never costs the pod that is newer than all others of its class, if it is at least two. */
  lemma NewestSurvives(pods: seq<Pod>, limit: int, gone: set<nat>, newest: Pod)
    requires DistinctNames(pods) && AreOldest(pods, PruneCount(|pods|, limit), gone) && limit >= 2
    requires newest in pods && forall p :: p in pods && p != newest ==> Less(p, newest)
    ensures newest.name !in gone
  {
    NamesCount(pods);
    assert |gone| < |Names(pods)|;
    assert exists name :: name in Names(pods) && name !in gone by {
      if Names(pods) <= gone {
        SubsetSize(Names(pods), gone);
        assert false;
      }
    }
    var name :| name in Names(pods) && name !in gone;
    var p :| p in pods && p.name == name;
    assert p == newest || Less(p, newest);
  }
}
