/** Stories and members as the tracker client hands them over, and the pure derivations both
    reports compute from them: the per-state selection and the two point sums. */
module Stories {
  import opened Wrappers
  import opened Workflow
  import opened Seqs

  /** A project member (only the fields the core reads). */
  datatype Member = Member(name: string, initials: string)

  /** A story as listed by the tracker. An estimate is a whole number of points or nil. */
  datatype Story = Story(id: nat, name: string, estimate: Option<nat>, currentState: State, ownedBy: string)

  /** A story's contribution to points_total: its estimate, nil counting as 0. */
  function Points(s: Story): nat
  {
    match s.estimate
    case None => 0
    case Some(e) => e
  }

  /** A story's contribution to points_left: its estimate when it is in an active state. */
  function ActivePoints(s: Story): nat
  {
    if s.estimate.None? || !IsActive(s.currentState) then 0 else s.estimate.value
  }

  /** points_total: the left fold of Points over the stories. */
  function PointsTotalOf(stories: seq<Story>): nat
  {
    if stories == [] then 0
    else PointsTotalOf(stories[..|stories| - 1]) + Points(stories[|stories| - 1])
  }

  /** points_left: the left fold of ActivePoints over the stories. */
  function PointsLeftOf(stories: seq<Story>): nat
  {
    if stories == [] then 0
    else PointsLeftOf(stories[..|stories| - 1]) + ActivePoints(stories[|stories| - 1])
  }

  lemma PointsTotalSnoc(stories: seq<Story>, s: Story)
    ensures PointsTotalOf(stories + [s]) == PointsTotalOf(stories) + Points(s)
    ensures PointsLeftOf(stories + [s]) == PointsLeftOf(stories) + ActivePoints(s)
  {
    assert (stories + [s])[..|stories|] == stories;
  }

  /** The stories still to do count toward points_left; nothing else does. */
  function InActiveState(): Story -> bool
  {
    (s: Story) => IsActive(s.currentState)
  }

  /** points_left is points_total taken over the stories in an active state only. */
  lemma {:induction false} PointsLeftIsActiveTotal(stories: seq<Story>)
    ensures PointsLeftOf(stories) == PointsTotalOf(Select(stories, InActiveState()))
  {
    if stories != [] {
      var init, last := stories[..|stories| - 1], stories[|stories| - 1];
      PointsLeftIsActiveTotal(init);
      assert stories == init + [last];
      SelectSnoc(init, last, InActiveState());
      if IsActive(last.currentState) {
        PointsTotalSnoc(Select(init, InActiveState()), last);
      } else {
        assert ActivePoints(last) == 0;
        assert Select(stories, InActiveState()) == Select(init, InActiveState());
        assert PointsLeftOf(stories) == PointsLeftOf(init);
      }
    }
  }

  /** 0 <= points_left <= points_total, and the two agree exactly when every estimated story is
      in an active state. */
  lemma {:induction false} PointsLeftAtMostTotal(stories: seq<Story>)
    ensures 0 <= PointsLeftOf(stories) <= PointsTotalOf(stories)
    ensures PointsLeftOf(stories) == PointsTotalOf(stories) <==>
            forall s :: s in stories && Points(s) > 0 ==> IsActive(s.currentState)
  {
    if stories != [] {
      var init, last := stories[..|stories| - 1], stories[|stories| - 1];
      PointsLeftAtMostTotal(init);
      assert stories == init + [last];
    }
  }

  /** The predicate stories_for_state selects with. */
  function HasState(st: State): Story -> bool
  {
    (s: Story) => s.currentState == st
  }

  /** stories_for_state: the stories whose current state is st. */
  function StoriesForState(stories: seq<Story>, st: State): seq<Story>
  {
    Select(stories, HasState(st))
  }

  /** stories_for_state keeps exactly the stories in state st, each as often as it occurs, in
      their input order. */
  lemma StoriesForStateSpec(stories: seq<Story>, st: State)
    ensures forall s :: s in StoriesForState(stories, st) <==> s in stories && s.currentState == st
    ensures forall s :: multiset(StoriesForState(stories, st))[s] ==
                        if s.currentState == st then multiset(stories)[s] else 0
    ensures SubsequenceOf(StoriesForState(stories, st), stories)
  {
    SelectMembers(stories, HasState(st));
    SelectSubsequence(stories, HasState(st));
  }

  /** The predicate "the story's state is one of cols". */
  function HasStateIn(cols: seq<State>): Story -> bool
  {
    (s: Story) => s.currentState in cols
  }

  /** The per-state lists for cols, one after another. */
  function Bucketed(stories: seq<Story>, cols: seq<State>): seq<Story>
  {
    if cols == [] then [] else StoriesForState(stories, cols[0]) + Bucketed(stories, cols[1..])
  }

  predicate Distinct<T(==)>(s: seq<T>)
  {
    forall i, j :: 0 <= i < j < |s| ==> s[i] != s[j]
  }

  /** The per-state lists for distinct states partition the stories whose state is among them:
      each such story lands in exactly one list, as often as it occurs, and no other story lands
      anywhere. */
  lemma {:induction false} Partition(stories: seq<Story>, cols: seq<State>)
    requires Distinct(cols)
    ensures multiset(Bucketed(stories, cols)) == multiset(Select(stories, HasStateIn(cols)))
  {
    if cols == [] {
      SelectNone(stories, HasStateIn(cols));
    } else {
      var rest := cols[1..];
      assert Distinct(rest);
      Partition(stories, rest);
      assert forall s :: s in stories && HasState(cols[0])(s) ==> !HasStateIn(rest)(s);
      assert forall s :: s in stories ==> (HasStateIn(cols)(s) <==> HasState(cols[0])(s) || HasStateIn(rest)(s)) by {
        assert cols == [cols[0]] + rest;
      }
      SelectSplit(stories, HasState(cols[0]), HasStateIn(rest), HasStateIn(cols));
    }
  }

  /** The displayed columns are five distinct states. */
  lemma ColumnsDistinct()
    ensures Distinct(Columns)
  {
  }

  /** Grouping by the displayed columns loses no story whose state is displayed: the per-column
      lists together hold each such story once per occurrence. */
  lemma GroupingByColumns(stories: seq<Story>)
    ensures multiset(Bucketed(stories, Columns)) == multiset(Select(stories, HasStateIn(Columns)))
    ensures (forall s :: s in stories ==> s.currentState in Columns) ==>
            multiset(Bucketed(stories, Columns)) == multiset(stories)
  {
    ColumnsDistinct();
    Partition(stories, Columns);
    if forall s :: s in stories ==> s.currentState in Columns {
      SelectAll(stories, HasStateIn(Columns));
    }
  }

  lemma {:induction false} SelectAll(stories: seq<Story>, p: Story -> bool)
    requires forall s :: s in stories ==> p(s)
    ensures Select(stories, p) == stories
  {
    if stories != [] {
      SelectAll(stories[..|stories| - 1], p);
    }
  }
}
