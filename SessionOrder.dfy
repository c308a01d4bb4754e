/** LINQ's `OrderByDescending(s => s.DateStart)` on sessions: a stable sort, newest first. */
module SessionOrder {
  import opened Records

  ghost predicate SortedByDateDesc(s: seq<Session>)
  {
    forall i, j :: 0 <= i < j < |s| ==> s[i].dateStart >= s[j].dateStart
  }

  /** Where a stable insertion puts `x`: after every leading session at least as recent. */
  function InsertionPoint(x: Session, t: seq<Session>): (p: nat)
    ensures p <= |t|
    ensures forall i :: 0 <= i < p ==> t[i].dateStart >= x.dateStart
    ensures p < |t| ==> t[p].dateStart < x.dateStart
    decreases |t|
  {
    if t == [] || t[0].dateStart < x.dateStart then 0
    else 1 + InsertionPoint(x, t[1..])
  }

  function InsertByDate(x: Session, t: seq<Session>): seq<Session>
  {
    var p := InsertionPoint(x, t);
    t[..p] + [x] + t[p..]
  }

  /** Where each session of `t` lands once `x` is inserted. */
  lemma {:induction false} InsertByDateAt(x: Session, t: seq<Session>, k: int)
    requires 0 <= k <= |t|
    ensures |InsertByDate(x, t)| == |t| + 1
    ensures var p := InsertionPoint(x, t);
      InsertByDate(x, t)[k] == if k < p then t[k] else if k == p then x else t[k - 1]
  {
  }

  lemma {:induction false} InsertByDateSorted(x: Session, t: seq<Session>)
    requires SortedByDateDesc(t)
    ensures SortedByDateDesc(InsertByDate(x, t))
  {
    var p := InsertionPoint(x, t);
    var r := InsertByDate(x, t);
    forall i, j | 0 <= i < j < |r|
      ensures r[i].dateStart >= r[j].dateStart
    {
      InsertByDateAt(x, t, i);
      InsertByDateAt(x, t, j);
      if p < j - 1 {
        assert t[p].dateStart >= t[j - 1].dateStart;
      }
    }
  }

  lemma {:induction false} InsertByDatePermutes(x: Session, t: seq<Session>)
    ensures multiset(InsertByDate(x, t)) == multiset(t) + multiset{x}
  {
    var p := InsertionPoint(x, t);
    assert t == t[..p] + t[p..];
  }

  /** The sessions ordered newest first; sessions with the same date keep their input order. */
  function OrderByDateDescending(s: seq<Session>): (r: seq<Session>)
    ensures SortedByDateDesc(r)
    ensures multiset(r) == multiset(s)
    decreases |s|
  {
    if s == [] then []
    else
      var init, last := s[..|s| - 1], s[|s| - 1];
      assert s == init + [last];
      InsertByDateSorted(last, OrderByDateDescending(init));
      InsertByDatePermutes(last, OrderByDateDescending(init));
      InsertByDate(last, OrderByDateDescending(init))
  }

  /** The sessions that start at date `d`, in order. */
  function WithDate(s: seq<Session>, d: int): seq<Session>
    decreases |s|
  {
    if s == [] then []
    else (if s[0].dateStart == d then [s[0]] else []) + WithDate(s[1..], d)
  }

  lemma {:induction false} WithDateConcat(s: seq<Session>, t: seq<Session>, d: int)
    ensures WithDate(s + t, d) == WithDate(s, d) + WithDate(t, d)
    decreases |s|
  {
    if s != [] {
      assert (s + t)[1..] == s[1..] + t;
      WithDateConcat(s[1..], t, d);
    } else {
      assert s + t == t;
    }
  }

  lemma {:induction false} WithDateNone(s: seq<Session>, d: int)
    requires forall i :: 0 <= i < |s| ==> s[i].dateStart != d
    ensures WithDate(s, d) == []
    decreases |s|
  {
    if s != [] {
      WithDateNone(s[1..], d);
    }
  }

  lemma WithDateSingle(x: Session, d: int)
    ensures WithDate([x], d) == if x.dateStart == d then [x] else []
  {
    assert WithDate([x], d) == (if x.dateStart == d then [x] else []) + WithDate([], d);
  }

  /** In a sorted list, nothing from the insertion point on starts at the inserted session's date. */
  lemma {:induction false} NoneDatedAfterInsertionPoint(x: Session, t: seq<Session>)
    requires SortedByDateDesc(t)
    ensures WithDate(t[InsertionPoint(x, t)..], x.dateStart) == []
  {
    var p := InsertionPoint(x, t);
    var back := t[p..];
    forall i | 0 <= i < |back| ensures back[i].dateStart != x.dateStart {
      assert back[i] == t[p + i];
      assert t[p].dateStart >= t[p + i].dateStart;
    }
    WithDateNone(back, x.dateStart);
  }

  /** Inserting `x` adds it to the sessions of its date after all of them, provided none of
      that date follows the insertion point. */
  lemma {:induction false} WithDateInsert(x: Session, t: seq<Session>, d: int)
    requires x.dateStart == d ==> WithDate(t[InsertionPoint(x, t)..], d) == []
    ensures WithDate(InsertByDate(x, t), d) == WithDate(t, d) + (if x.dateStart == d then [x] else [])
  {
    var p := InsertionPoint(x, t);
    WithDateAround(x, t, p, d);
    var f, b := WithDate(t[..p], d), WithDate(t[p..], d);
    if x.dateStart == d {
      assert b == [];
      assert f + [x] + b == f + [x];
      assert f + b == f;
    } else {
      assert f + [] + b == f + b;
      assert f + b + [] == f + b;
    }
  }

  /** The dated sessions of `t`, and of `t` with `x` inserted at `p`, split around `p`. */
  lemma {:induction false} WithDateAround(x: Session, t: seq<Session>, p: int, d: int)
    requires p == InsertionPoint(x, t)
    ensures WithDate(t, d) == WithDate(t[..p], d) + WithDate(t[p..], d)
    ensures WithDate(InsertByDate(x, t), d) == WithDate(t[..p], d) + (if x.dateStart == d then [x] else []) + WithDate(t[p..], d)
  {
    var front, back := t[..p], t[p..];
    assert t == front + back;
    WithDateConcat(front, back, d);
    WithDateConcat(front + [x], back, d);
    WithDateConcat(front, [x], d);
    WithDateSingle(x, d);
  }

  /** The sort is stable: for every date, the sessions of that date come out in their input order. */
  lemma {:induction false} OrderByDateDescendingIsStable(s: seq<Session>, d: int)
    ensures WithDate(OrderByDateDescending(s), d) == WithDate(s, d)
    decreases |s|
  {
    if s != [] {
      var init, last := s[..|s| - 1], s[|s| - 1];
      OrderByDateDescendingIsStable(init, d);
      NoneDatedAfterInsertionPoint(last, OrderByDateDescending(init));
      WithDateInsert(last, OrderByDateDescending(init), d);
      assert s == init + [last];
      WithDateConcat(init, [last], d);
      WithDateSingle(last, d);
    }
  }
}
