/** The web application's core: developers with their memoised point totals, the grouping of a
    project's stories into one lane per member, the pruning of empty optional columns, and the
    `next` transition of a single story. */
module Swimlanes {
  import opened Wrappers
  import opened Workflow
  import opened Seqs
  import opened Stories

  /** The predicate Developer.all selects a member's stories with. */
  function OwnedBy(name: string): Story -> bool
  {
    (s: Story) => s.ownedBy == name
  }

  /** A member's lane: the stories whose owner name equals the member's name, in input order. */
  function LaneOf(stories: seq<Story>, m: Member): seq<Story>
  {
    Select(stories, OwnedBy(m.name))
  }

  /** A lane holds exactly the stories owned by its member, each as often as it occurs, in
      their input order. */
  lemma LaneOfSpec(stories: seq<Story>, m: Member)
    ensures forall s :: s in LaneOf(stories, m) <==> s in stories && s.ownedBy == m.name
    ensures forall s :: multiset(LaneOf(stories, m))[s] == if s.ownedBy == m.name then multiset(stories)[s] else 0
    ensures SubsequenceOf(LaneOf(stories, m), stories)
  {
    SelectMembers(stories, OwnedBy(m.name));
    SelectSubsequence(stories, OwnedBy(m.name));
  }

  /** A story whose owner name is no member's name is in no lane. */
  lemma NonMemberStoryInNoLane(stories: seq<Story>, members: seq<Member>, s: Story)
    requires forall m :: m in members ==> s.ownedBy != m.name
    ensures forall m :: m in members ==> s !in LaneOf(stories, m)
  {
    forall m | m in members
      ensures s !in LaneOf(stories, m)
    {
      LaneOfSpec(stories, m);
    }
  }

  /** A member together with their stories; the two point sums are computed on first use and
      kept in pointsTotalMemo and pointsLeftMemo (nil until then). */
  class Developer {
    const member: Member
    const stories: seq<Story>
    var pointsTotalMemo: Option<nat>
    var pointsLeftMemo: Option<nat>

    /** A stored sum is the sum of the developer's stories. */
    ghost predicate Valid()
      reads this
    {
      && (pointsTotalMemo.Some? ==> pointsTotalMemo.value == PointsTotalOf(stories))
      && (pointsLeftMemo.Some? ==> pointsLeftMemo.value == PointsLeftOf(stories))
    }

    constructor (member: Member, stories: seq<Story>)
      ensures Valid()
      ensures this.member == member && this.stories == stories
      ensures pointsTotalMemo == None && pointsLeftMemo == None
    {
      this.member := member;
      this.stories := stories;
      pointsTotalMemo := None;
      pointsLeftMemo := None;
    }

    /** points_total: the sum of the estimates, nil counting as 0; stored after the first call,
        and a stored value is returned as it is. */
    method PointsTotal() returns (total: nat)
      requires Valid()
      modifies this`pointsTotalMemo
      ensures Valid()
      ensures total == PointsTotalOf(stories)
      ensures pointsTotalMemo == Some(total)
      ensures old(pointsTotalMemo).Some? ==> total == old(pointsTotalMemo).value
    {
      if pointsTotalMemo.Some? {
        return pointsTotalMemo.value;
      }
      var tot := 0;
      for i := 0 to |stories|
        invariant tot == PointsTotalOf(stories[..i])
      {
        PointsTotalSnoc(stories[..i], stories[i]);
        assert stories[..i + 1] == stories[..i] + [stories[i]];
        tot := tot + Points(stories[i]);
      }
      assert stories[..|stories|] == stories;
      pointsTotalMemo := Some(tot);
      total := tot;
    }

    /** points_left: the sum of the estimates of the stories in an active state; stored after
        the first call, and a stored value is returned as it is. */
    method PointsLeft() returns (left: nat)
      requires Valid()
      modifies this`pointsLeftMemo
      ensures Valid()
      ensures left == PointsLeftOf(stories)
      ensures pointsLeftMemo == Some(left)
      ensures old(pointsLeftMemo).Some? ==> left == old(pointsLeftMemo).value
    {
      if pointsLeftMemo.Some? {
        return pointsLeftMemo.value;
      }
      var tot := 0;
      for i := 0 to |stories|
        invariant tot == PointsLeftOf(stories[..i])
      {
        PointsTotalSnoc(stories[..i], stories[i]);
        assert stories[..i + 1] == stories[..i] + [stories[i]];
        var s := stories[i];
        tot := tot + (if s.estimate.None? || !(s.currentState in ActiveStates) then 0 else s.estimate.value);
      }
      assert stories[..|stories|] == stories;
      pointsLeftMemo := Some(tot);
      left := tot;
    }

    /** Developer.all: one new developer per member, in member order, each holding that
        member's lane of the project's stories. */
    static method All(members: seq<Member>, stories: seq<Story>) returns (developers: seq<Developer>)
      ensures |developers| == |members|
      ensures forall i :: 0 <= i < |members| ==>
                && fresh(developers[i])
                && developers[i].Valid()
                && developers[i].member == members[i]
                && developers[i].stories == LaneOf(stories, members[i])
                && developers[i].pointsTotalMemo == None
                && developers[i].pointsLeftMemo == None
    {
      developers := [];
      for i := 0 to |members|
        invariant |developers| == i
        invariant forall k :: 0 <= k < i ==>
                    && fresh(developers[k])
                    && developers[k].Valid()
                    && developers[k].member == members[k]
                    && developers[k].stories == LaneOf(stories, members[k])
                    && developers[k].pointsTotalMemo == None
                    && developers[k].pointsLeftMemo == None
      {
        var d := new Developer(members[i], LaneOf(stories, members[i]));
        developers := developers + [d];
      }
    }
  }

  /** Whether the project page keeps column c: a conditional column is dropped when no story
      is in it; every other column is kept. */
  predicate ColumnShown(c: State, stories: seq<Story>)
  {
    !(c in ConditionalColumns && StoriesForState(stories, c) == [])
  }

  function ShownIn(stories: seq<Story>): State -> bool
  {
    (c: State) => ColumnShown(c, stories)
  }

  /** A column is dropped only when it is rejected or delivered and no story is in it. */
  lemma DroppedColumn(c: State, stories: seq<Story>)
    requires !ColumnShown(c, stories)
    ensures c == Rejected || c == Delivered
    ensures forall s :: s in stories ==> s.currentState != c
  {
    StoriesForStateSpec(stories, c);
  }

  /** The delete_if on @states: keeps, in order, the columns that are shown. */
  method PruneColumns(states: seq<State>, stories: seq<Story>) returns (kept: seq<State>)
    ensures forall c :: c in kept <==> c in states && ColumnShown(c, stories)
    ensures SubsequenceOf(kept, states)
  {
    kept := [];
    for i := 0 to |states|
      invariant kept == Select(states[..i], ShownIn(stories))
    {
      SelectSnoc(states[..i], states[i], ShownIn(stories));
      assert states[..i + 1] == states[..i] + [states[i]];
      if !(states[i] in ConditionalColumns && StoriesForState(stories, states[i]) == []) {
        kept := kept + [states[i]];
      }
    }
    assert states[..|states|] == states;
    SelectMembers(states, ShownIn(stories));
    SelectSubsequence(states, ShownIn(stories));
  }

  /** A story fetched for the `next` route. currentState is the local copy the route assigns;
      savedState is the state the tracker holds, written by Update. */
  class TrackedStory {
    const id: nat
    var currentState: State
    var savedState: State

    constructor (id: nat, state: State)
      ensures this.id == id && currentState == state && savedState == state
    {
      this.id := id;
      currentState := state;
      savedState := state;
    }

    /** story.update: sends the local fields to the tracker (its effect, abstractly). */
    method Update()
      modifies this`savedState
      ensures savedState == currentState
    {
      savedState := currentState;
    }
  }

  /** Why the `next` route raised. */
  datatype NextError = UnknownStory | UnknownTransition(state: State)

  /** What the route logs on success: the story and its old and new state. */
  datatype Transitioned = Transitioned(id: nat, from: State, to: State)

  /** The `next` route: fails on a missing story, then on a state without a table entry
      (changing nothing), and otherwise assigns the successor state and saves it. */
  method Next(story: TrackedStory?) returns (r: Result<Transitioned, NextError>)
    modifies story
    ensures story == null ==> r == Failure(UnknownStory)
    ensures story != null && NextState(old(story.currentState)).None? ==>
              r == Failure(UnknownTransition(old(story.currentState))) && unchanged(story)
    ensures story != null && NextState(old(story.currentState)).Some? ==>
              && r == Success(Transitioned(story.id, old(story.currentState), story.currentState))
              && story.currentState == NextState(old(story.currentState)).value
              && story.savedState == story.currentState
  {
    if story == null {
      return Failure(UnknownStory);
    }
    if story.currentState !in ForwardTransition {
      return Failure(UnknownTransition(story.currentState));
    }
    var oldState := story.currentState;
    story.currentState := ForwardTransition[story.currentState];
    story.Update();
    r := Success(Transitioned(story.id, oldState, story.currentState));
  }
}
