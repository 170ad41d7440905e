/**
 The status filter of the project list: which rows the table shows for the
 selected filter value ("All", "Active" or "Completed"; any other value shows
 nothing).
 */
module StatusFilter {
  import opened Records

  const InProgress: string := "In Progress"
  const Completed: string := "Completed"

  /** Whether a row passes the filter: every row under "All", rows with status
      "In Progress" under "Active", rows with status "Completed" under
      "Completed", and no row under any other value. */
  function Keeps(filter: string, p: Project): (keep: bool)
    ensures filter == "All" ==> keep
    ensures filter == "Active" && p.status == "In Progress" ==> keep
    ensures filter == "Completed" && p.status == "Completed" ==> keep
    ensures keep && filter != "All" ==>
              || (filter == "Active" && p.status == "In Progress")
              || (filter == "Completed" && p.status == "Completed")
  {
    if filter == "All" then true
    else if filter == "Active" then p.status == InProgress
    else if filter == "Completed" then p.status == Completed
    else false
  }

  /** The part of the filtered list contributed by one row: the row itself
      when it passes, nothing otherwise. */
  function KeptHead(filter: string, x: Project): seq<Project> {
    if Keeps(filter, x) then [x] else []
  }

  /** The rows shown for a filter value, in list order. */
  function Visible(filter: string, ps: seq<Project>): (r: seq<Project>)
    ensures |r| <= |ps|
    ensures forall k :: 0 <= k < |r| ==> Keeps(filter, r[k])
  {
    if |ps| == 0 then []
    else KeptHead(filter, ps[0]) + Visible(filter, ps[1..])
  }

  /** `idx` lists, in increasing order, positions of `ps` whose rows make up `r`. */
  ghost predicate PicksOut(r: seq<Project>, ps: seq<Project>, idx: seq<nat>) {
    && |idx| == |r|
    && (forall k :: 0 <= k < |idx| ==> idx[k] < |ps| && r[k] == ps[idx[k]])
    && (forall k, l :: 0 <= k < l < |idx| ==> idx[k] < idx[l])
  }

  /** `r` is the order-preserving subsequence of `ps` made of exactly the
      positions whose row satisfies the filter. */
  ghost predicate Selection(filter: string, r: seq<Project>, ps: seq<Project>, idx: seq<nat>) {
    && PicksOut(r, ps, idx)
    && (forall i :: 0 <= i < |ps| ==> (Keeps(filter, ps[i]) <==> i in idx))
  }

  /** The index list shifted one position to the right: it holds a position
      exactly when the original holds the one before it, and never holds 0. */
  function Shift(idx: seq<nat>): (s: seq<nat>)
    ensures |s| == |idx|
    ensures 0 !in s
    ensures forall i :: i in s <==> i > 0 && i - 1 in idx
  {
    var s := seq(|idx|, k requires 0 <= k < |idx| => idx[k] + 1);
    assert forall k :: 0 <= k < |idx| ==> s[k] == idx[k] + 1;
    s
  }

  /** Picking positions out of the tail of a list picks the shifted positions
      out of the whole list; putting the head in front adds position 0. */
  lemma PicksOutShift(r: seq<Project>, ps: seq<Project>, idx: seq<nat>)
    requires ps != []
    requires PicksOut(r, ps[1..], idx)
    ensures PicksOut(r, ps, Shift(idx))
    ensures PicksOut([ps[0]] + r, ps, [0] + Shift(idx))
  {
  }

  /** The positions the filtered list is picked from, built alongside it. */
  lemma {:induction false} SelectionWitness(filter: string, ps: seq<Project>) returns (idx: seq<nat>)
    ensures Selection(filter, Visible(filter, ps), ps, idx)
    decreases |ps|
  {
    if |ps| == 0 {
      idx := [];
    } else {
      var rest := SelectionWitness(filter, ps[1..]);
      var rr := Visible(filter, ps[1..]);
      PicksOutShift(rr, ps, rest);
      if Keeps(filter, ps[0]) {
        idx := [0] + Shift(rest);
        assert Visible(filter, ps) == [ps[0]] + rr;
      } else {
        idx := Shift(rest);
        assert Visible(filter, ps) == rr;
      }
      forall i | 0 <= i < |ps|
        ensures Keeps(filter, ps[i]) <==> i in idx
      {
        if i > 0 {
          assert ps[i] == ps[1..][i - 1];
        }
      }
    }
  }

  /** The filtered list is a subsequence of the list, in the same order, and it
      keeps a position exactly when the row there passes the filter. */
  lemma VisibleIsSelection(filter: string, ps: seq<Project>)
    ensures exists idx :: Selection(filter, Visible(filter, ps), ps, idx)
  {
    var idx := SelectionWitness(filter, ps);
  }

  /** Under "Active" and under "Completed" the filter tests the status against
      one fixed value. */
  predicate ViewStatus(filter: string, status: string) {
    || (filter == "Active" && status == "In Progress")
    || (filter == "Completed" && status == "Completed")
  }

  /** A view that tests one status keeps, in order, exactly the rows with it. */
  lemma ViewKeepsStatus(filter: string, status: string, ps: seq<Project>)
    requires ViewStatus(filter, status)
    ensures exists idx :: PicksOut(Visible(filter, ps), ps, idx)
                          && forall i :: 0 <= i < |ps| ==> (ps[i].status == status <==> i in idx)
  {
    var idx := SelectionWitness(filter, ps);
    forall i | 0 <= i < |ps|
      ensures ps[i].status == status <==> i in idx
    {
      assert Keeps(filter, ps[i]) <==> ps[i].status == status;
    }
  }

  /** Filter "Active" keeps exactly the rows whose status is "In Progress", and
      filter "Completed" exactly those whose status is "Completed", in order. */
  lemma StatusViewsKeepMatchingRows(ps: seq<Project>)
    ensures exists idx :: PicksOut(Visible("Active", ps), ps, idx)
                          && forall i :: 0 <= i < |ps| ==> (ps[i].status == "In Progress" <==> i in idx)
    ensures exists idx :: PicksOut(Visible("Completed", ps), ps, idx)
                          && forall i :: 0 <= i < |ps| ==> (ps[i].status == "Completed" <==> i in idx)
  {
    ViewKeepsStatus("Active", "In Progress", ps);
    ViewKeepsStatus("Completed", "Completed", ps);
  }

  /** Filter "All" shows the list exactly as it is. */
  lemma {:induction false} AllShowsEverything(ps: seq<Project>)
    ensures Visible("All", ps) == ps
  {
    if ps != [] {
      AllShowsEverything(ps[1..]);
      assert [ps[0]] + ps[1..] == ps;
    }
  }

  /** A filter value other than "All", "Active" or "Completed" shows nothing. */
  lemma {:induction false} UnknownFilterShowsNothing(filter: string, ps: seq<Project>)
    requires filter != "All" && filter != "Active" && filter != "Completed"
    ensures Visible(filter, ps) == []
  {
    if ps != [] {
      UnknownFilterShowsNothing(filter, ps[1..]);
    }
  }

  /** A row is shown exactly when it is in the list and passes the filter. */
  lemma {:induction false} VisibleMembers(filter: string, ps: seq<Project>, p: Project)
    ensures p in Visible(filter, ps) <==> p in ps && Keeps(filter, p)
  {
    if ps != [] {
      VisibleMembers(filter, ps[1..], p);
      assert ps == [ps[0]] + ps[1..];
    }
  }

  /** Filtering a list with a row in front filters the front row on its own. */
  lemma VisibleCons(filter: string, x: Project, t: seq<Project>)
    ensures Visible(filter, [x] + t) == KeptHead(filter, x) + Visible(filter, t)
  {
  }

  /** A non-empty list is its head in front of its tail, also inside a concatenation. */
  lemma SplitHead<T>(a: seq<T>, b: seq<T>)
    requires |a| > 0
    ensures a == [a[0]] + a[1..]
    ensures a + b == [a[0]] + (a[1..] + b)
  {
  }

  /** Filtering a concatenation filters each part separately. */
  lemma {:induction false} VisibleAppend(filter: string, a: seq<Project>, b: seq<Project>)
    ensures Visible(filter, a + b) == Visible(filter, a) + Visible(filter, b)
    decreases |a|
  {
    if |a| == 0 {
      assert a + b == b;
    } else {
      var x, t := a[0], a[1..];
      SplitHead(a, b);
      VisibleAppend(filter, t, b);
      VisibleCons(filter, x, t + b);
      VisibleCons(filter, x, t);
      var h, vt, vb := KeptHead(filter, x), Visible(filter, t), Visible(filter, b);
      assert h + (vt + vb) == (h + vt) + vb;
    }
  }

  /** Filtering an already filtered list changes nothing. */
  lemma {:induction false} VisibleIdempotent(filter: string, ps: seq<Project>)
    ensures Visible(filter, Visible(filter, ps)) == Visible(filter, ps)
  {
    if ps != [] {
      VisibleIdempotent(filter, ps[1..]);
      var head := KeptHead(filter, ps[0]);
      VisibleAppend(filter, head, Visible(filter, ps[1..]));
      if Keeps(filter, ps[0]) {
        assert Visible(filter, head) == head by {
          assert head[1..] == [];
        }
      }
    }
  }

  /** No row is both "Active" and "Completed": the two views together are never
      longer than the list. */
  lemma {:induction false} ActiveCompletedDisjoint(ps: seq<Project>)
    ensures forall p :: p in Visible("Active", ps) ==> p !in Visible("Completed", ps)
    ensures |Visible("Active", ps)| + |Visible("Completed", ps)| <= |ps|
  {
    if ps != [] {
      ActiveCompletedDisjoint(ps[1..]);
    }
  }
}
