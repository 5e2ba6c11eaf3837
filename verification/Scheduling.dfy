// The queue of a directory lets requests in as the directory model supposes.

module Scheduling {
  import S = Scheduler
  import D = Directory

  function Class(op: D.Op): S.Op { if D.Joins(op) then S.Dirent else S.Other }

  // A directory's queue holds requests of the directory model, by number, among
  // others. A request that changes entries is posted as one that modifies.
  predicate Queues(list: seq<S.Element>, reqs: map<nat, D.Op>, dir: D.Handle) {
    forall k :: 0 <= k < |list| && list[k].id in reqs ==>
      && D.Locks(reqs[list[k].id]) == {dir} && list[k].op == Class(reqs[list[k].id])
      && (D.Exclusive(reqs[list[k].id]) ==> list[k].access == S.Modify)
  }

  predicate LetIn(list: seq<S.Element>, id: nat) {
    exists k :: 0 <= k < |list| && list[k].id == id && S.Admitted(list[k])
  }

  // The requests that have been let in and not yet left.
  function Running(list: seq<S.Element>, reqs: map<nat, D.Op>): map<nat, D.Op> {
    map id | id in reqs && LetIn(list, id) :: reqs[id]
  }

  // A request that runs at once is one the directory model admits.
  lemma PostAdmits(list: seq<S.Element>, reqs: map<nat, D.Op>, dir: D.Handle, id: nat)
    requires S.Valid(list) && Queues(list, reqs, dir) && id in reqs && D.Locks(reqs[id]) == {dir}
    requires S.RunsAtOnce(list, Class(reqs[id]), S.Modify)
    ensures D.Admits(Running(list, reqs), reqs[id])
  {
    if D.Exclusive(reqs[id]) {
      assert list == [];
    }
  }

  // So is one that a release lets in, beside whatever else is running then.
  lemma ReleaseAdmits(list: seq<S.Element>, reqs: map<nat, D.Op>, dir: D.Handle, k: nat, n: nat)
    requires S.Valid(list) && Queues(list, reqs, dir) && k < |list|
    requires var rest := list[..k] + list[k + 1..];
             n < |rest| && !S.Admitted(rest[n]) && S.Admitted(S.Released(rest)[n]) && rest[n].id in reqs
    ensures var rest := list[..k] + list[k + 1..];
            D.Admits(Running(S.Released(rest), reqs) - {rest[n].id}, reqs[rest[n].id])
  {
    var rest := list[..k] + list[k + 1..];
    assert forall i :: 0 <= i < |rest| ==> rest[i] == list[if i < k then i else i + 1];
    assert Queues(rest, reqs, dir);
    S.WithoutKeepsOrder(list, k);
    if D.Exclusive(reqs[rest[n].id]) {
      S.ReleasedKeepsValid(list, k);
      OnlyOneLetIn(rest, n);
    }
  }

  // An exclusive request that a release lets in is the only one let in.
  lemma OnlyOneLetIn(rest: seq<S.Element>, n: nat)
    requires S.Valid(S.Released(rest)) && n < |rest| && !S.Admitted(rest[n]) && S.Admitted(S.Released(rest)[n])
    requires S.Exclusive(rest[n]) && forall i, j :: 0 <= i < j < |rest| && S.Admitted(rest[j]) ==> S.Admitted(rest[i])
    ensures forall i :: 0 <= i < |rest| && i != n ==> !S.Admitted(S.Released(rest)[i])
  {
    S.ExclusiveIsFirst(S.Released(rest), n);
    assert n == 0;
    assert S.GroupEnd(rest, 1) == 1;
  }

  // Starting one that was let in changes nothing here.
  lemma StartKeeps(list: seq<S.Element>, reqs: map<nat, D.Op>, k: nat)
    requires k < |list| && list[k].state == S.Ready
    ensures Running(list[k := list[k].(state := S.Scheduled)], reqs) == Running(list, reqs)
  {
    var after := list[k := list[k].(state := S.Scheduled)];
    forall id ensures LetIn(after, id) == LetIn(list, id) {
      if i :| 0 <= i < |list| && list[i].id == id && S.Admitted(list[i]) {
        assert after[i].id == id && S.Admitted(after[i]);
      }
      if i :| 0 <= i < |after| && after[i].id == id && S.Admitted(after[i]) {
        assert list[i].id == id && S.Admitted(list[i]);
      }
    }
  }
}
