/** The command-line report: a header row, then for each member with stories a summary line,
    rows of one story per column popped from per-state buckets, and a blank line. The tracker
    queries are parameters: each member comes with the stories fetched for them. */
module Report {
  import opened Wrappers
  import opened Workflow
  import opened Seqs
  import opened Stories
  import opened Text

  /** A member and the stories the tracker returned for them. */
  datatype MemberStories = MemberStories(member: Member, stories: seq<Story>)

  /** A header field: the state's name and a tab. */
  function Field(st: State): string
  {
    st.Name() + "\t"
  }

  /** The header fields of the given states, one after another. */
  function TabTerminated(states: seq<State>): string
  {
    if states == [] then ""
    else TabTerminated(states[..|states| - 1]) + Field(states[|states| - 1])
  }

  /** The header fields spell out the five column names, each followed by a tab. */
  lemma HeaderFields()
    ensures TabTerminated(Columns) == "unstarted\t" + "rejected\t" + "started\t" + "finished\t" + "delivered\t"
  {
    assert Columns[..1] == [Unstarted];
    assert Columns[..2][..1] == Columns[..1];
    assert Columns[..3][..2] == Columns[..2];
    assert Columns[..4][..3] == Columns[..3];
    assert Columns[..5][..4] == Columns[..4];
    assert Columns[..5] == Columns;
    assert TabTerminated(Columns[..1]) == "unstarted\t";
    assert TabTerminated(Columns[..2]) == "unstarted\t" + "rejected\t";
    assert TabTerminated(Columns[..3]) == "unstarted\t" + "rejected\t" + "started\t";
    assert TabTerminated(Columns[..4]) == "unstarted\t" + "rejected\t" + "started\t" + "finished\t";
  }

  /** The header row: "owner", then every column's name, each field ending in a tab. */
  method HeaderLine() returns (line: string)
    ensures line == "owner\t" + TabTerminated(Columns)
    ensures line == "owner\t" + "unstarted\t" + "rejected\t" + "started\t" + "finished\t" + "delivered\t"
  {
    line := "owner\t";
    for k := 0 to |Columns|
      invariant line == "owner\t" + TabTerminated(Columns[..k])
    {
      assert Columns[..k + 1][..k] == Columns[..k];
      AppendAssoc("owner\t", TabTerminated(Columns[..k]), Field(Columns[k]));
      line := line + Field(Columns[k]);
    }
    assert Columns[..|Columns|] == Columns;
    HeaderFields();
  }

  /** The column names in display order. */
  function ColumnNames(): seq<string>
  {
    seq(|Columns|, k requires 0 <= k < |Columns| => Columns[k].Name())
  }

  /** The tail of every summary line: the column names, each after a tab, a bar and three
      spaces. */
  function ColumnBanner(): string
  {
    "\t|   " + Join(ColumnNames(), "\t|   ")
  }

  /** The banner reads: tab, bar, three spaces before each column name in display order. */
  lemma ColumnBannerText()
    ensures ColumnBanner() ==
            "\t|   " + "unstarted" + "\t|   " + "rejected" + "\t|   " + "started" + "\t|   " + "finished"
            + "\t|   " + "delivered"
  {
    assert ColumnNames() == ["unstarted", "rejected", "started", "finished", "delivered"];
    JoinFive("unstarted", "rejected", "started", "finished", "delivered", "\t|   ");
  }

  /** A member's summary line: name, points to go, points in total, number of stories, then
      the column banner. */
  function SummaryLine(name: string, pointsToGo: nat, pointsTotal: nat, count: nat): string
  {
    name + " (" + NatToString(pointsToGo) + "/" + NatToString(pointsTotal) + " in "
      + NatToString(count) + ")" + ColumnBanner()
  }

  /** The buckets once filled: one per column, holding that column's stories in input order. */
  function BucketsOf(stories: seq<Story>): map<State, seq<Story>>
  {
    map[Unstarted := StoriesForState(stories, Unstarted), Rejected := StoriesForState(stories, Rejected),
        Started := StoriesForState(stories, Started), Finished := StoriesForState(stories, Finished),
        Delivered := StoriesForState(stories, Delivered)]
  }

  lemma StoriesForStateSnoc(stories: seq<Story>, s: Story, c: State)
    ensures StoriesForState(stories + [s], c) ==
            StoriesForState(stories, c) + (if s.currentState == c then [s] else [])
  {
    SelectSnoc(stories, s, HasState(c));
  }

  /** buckets has one entry per column, holding that column's stories among the given ones. */
  ghost predicate BucketsFor(buckets: map<State, seq<Story>>, stories: seq<Story>)
  {
    && (forall c :: c in buckets <==> c in Columns)
    && (forall c :: c in buckets ==> buckets[c] == StoriesForState(stories, c))
  }

  /** Appending a story to its state's bucket, when it has one, files it. */
  lemma FileStory(buckets: map<State, seq<Story>>, stories: seq<Story>, s: Story)
    requires BucketsFor(buckets, stories)
    ensures var st := s.currentState;
            BucketsFor(if st in buckets then buckets[st := buckets[st] + [s]] else buckets, stories + [s])
  {
    forall c | c in Columns {
      StoriesForStateSnoc(stories, s, c);
    }
  }

  /** The first pass over a member's stories: one empty bucket per column, every story appended
      to its state's bucket if it has one, and the two point counters accumulated. */
  method FillBuckets(stories: seq<Story>) returns (buckets: map<State, seq<Story>>, pointsToGo: nat, pointsTotal: nat)
    ensures forall c :: c in buckets <==> c in Columns
    ensures forall c :: c in buckets ==> buckets[c] == StoriesForState(stories, c)
    ensures pointsToGo == PointsLeftOf(stories)
    ensures pointsTotal == PointsTotalOf(stories)
  {
    buckets := map[];
    for k := 0 to |Columns|
      invariant forall c :: c in buckets <==> c in Columns[..k]
      invariant forall c :: c in buckets ==> buckets[c] == []
    {
      buckets := buckets[Columns[k] := []];
    }
    assert Columns[..|Columns|] == Columns;
    pointsToGo, pointsTotal := 0, 0;
    for i := 0 to |stories|
      invariant BucketsFor(buckets, stories[..i])
      invariant pointsToGo == PointsLeftOf(stories[..i])
      invariant pointsTotal == PointsTotalOf(stories[..i])
    {
      var s := stories[i];
      assert stories[..i + 1] == stories[..i] + [s];
      PointsTotalSnoc(stories[..i], s);
      FileStory(buckets, stories[..i], s);
      var currentState := s.currentState;
      if s.estimate.Some? {
        if currentState in ActiveStates {
          pointsToGo := pointsToGo + s.estimate.value;
        }
        pointsTotal := pointsTotal + s.estimate.value;
      }
      if currentState in buckets {
        buckets := buckets[currentState := buckets[currentState] + [s]];
      }
    }
    assert stories[..|stories|] == stories;
  }

  /** A bucket's contents, empty for a state without one. */
  function BucketAt(buckets: map<State, seq<Story>>, c: State): seq<Story>
  {
    if c in buckets then buckets[c] else []
  }

  /** What is left of bucket b after r rows have popped from it. */
  function Remaining(b: seq<Story>, r: nat): seq<Story>
  {
    if r >= |b| then [] else b[..|b| - r]
  }

  /** The cell of row r (from 0) for bucket b: its r-th story from the end, or blank. */
  function CellAt(b: seq<Story>, r: int): Option<Story>
  {
    if 0 <= r < |b| then Some(b[|b| - 1 - r]) else None
  }

  /** Row r of the table: one cell per column, in column order. */
  function RowCells(buckets: map<State, seq<Story>>, r: int): seq<Option<Story>>
  {
    CellsFor(buckets, Columns, r)
  }

  function CellsFor(buckets: map<State, seq<Story>>, cols: seq<State>, r: int): (cells: seq<Option<Story>>)
    ensures |cells| == |cols|
    ensures forall k :: 0 <= k < |cols| ==> cells[k] == CellAt(BucketAt(buckets, cols[k]), r)
  {
    if cols == [] then [] else CellsFor(buckets, cols[..|cols| - 1], r) + [CellAt(BucketAt(buckets, cols[|cols| - 1]), r)]
  }

  function CellText(cell: Option<Story>): string
  {
    match cell
    case None => "|\t"
    case Some(s) => "| " + s.name + "\t"
  }

  function CellsText(cells: seq<Option<Story>>): string
  {
    if cells == [] then "" else CellsText(cells[..|cells| - 1]) + CellText(cells[|cells| - 1])
  }

  /** A table row as printed: a leading tab, then each cell. */
  function RenderRow(cells: seq<Option<Story>>): string
  {
    "\t" + CellsText(cells)
  }

  /** The number of rows the pop loop prints for n stories: n divided by the number of columns,
      rounded up. */
  function RowCount(n: nat): (rows: nat)
    ensures 5 * rows - 5 < n <= 5 * rows
  {
    (n + 4) / 5
  }

  lemma CellsTextSnoc(cells: seq<Option<Story>>, j: nat)
    requires j < |cells|
    ensures CellsText(cells[..j + 1]) == CellsText(cells[..j]) + CellText(cells[j])
  {
    assert cells[..j + 1][..j] == cells[..j];
  }

  /** Adding cell j to the rendering of the cells before it renders the first j + 1 cells. */
  lemma RenderStep(cells: seq<Option<Story>>, j: nat)
    requires j < |cells|
    ensures "\t" + CellsText(cells[..j]) + CellText(cells[j]) == "\t" + CellsText(cells[..j + 1])
  {
    CellsTextSnoc(cells, j);
    AppendAssoc("\t", CellsText(cells[..j]), CellText(cells[j]));
  }

  /** Popping from what r rows left of b yields row r's cell for b and leaves what r + 1 rows
      leave. */
  lemma PopCell(b: seq<Story>, r: nat)
    ensures Remaining(b, r) == [] ==> CellAt(b, r) == None && Remaining(b, r + 1) == []
    ensures Remaining(b, r) != [] ==>
              var rest := Remaining(b, r);
              CellAt(b, r) == Some(rest[|rest| - 1]) && rest[..|rest| - 1] == Remaining(b, r + 1)
  {
  }

  /** Midway through row r: the first j columns have been popped for this row, the others not. */
  ghost predicate PoppedUpTo(buckets: map<State, seq<Story>>, r: nat, popped: map<State, seq<Story>>, j: nat)
  {
    && (forall k :: 0 <= k < |Columns| ==> Columns[k] in popped && Columns[k] in buckets)
    && (forall k :: 0 <= k < j && k < |Columns| ==> popped[Columns[k]] == Remaining(buckets[Columns[k]], r + 1))
    && (forall k :: j <= k < |Columns| ==> popped[Columns[k]] == Remaining(buckets[Columns[k]], r))
  }

  /** Popping column j (or leaving it when its bucket is empty) moves the midway point on by one
      and produces row r's cell for column j. */
  lemma PopStep(buckets: map<State, seq<Story>>, r: nat, popped: map<State, seq<Story>>, j: nat)
    requires j < |Columns| && PoppedUpTo(buckets, r, popped, j)
    ensures var st := Columns[j];
            var b := popped[st];
            && (b == [] ==> PoppedUpTo(buckets, r, popped, j + 1) && RowCells(buckets, r)[j] == None)
            && (b != [] ==> PoppedUpTo(buckets, r, popped[st := b[..|b| - 1]], j + 1)
                            && RowCells(buckets, r)[j] == Some(b[|b| - 1]))
  {
    ColumnsDistinct();
    PopCell(buckets[Columns[j]], r);
  }

  /** One cell of the inner loop: pop column j's bucket when it is not empty. */
  method PopColumn(buckets: map<State, seq<Story>>, r: nat, current: map<State, seq<Story>>, j: nat)
    returns (cell: Option<Story>, popped: map<State, seq<Story>>)
    requires j < |Columns| && PoppedUpTo(buckets, r, current, j)
    ensures cell == RowCells(buckets, r)[j]
    ensures PoppedUpTo(buckets, r, popped, j + 1)
  {
    var state := Columns[j];
    PopStep(buckets, r, current, j);
    cell, popped := None, current;
    if current[state] != [] {
      var bucket := current[state];
      cell := Some(bucket[|bucket| - 1]);
      popped := current[state := bucket[..|bucket| - 1]];
    }
  }

  /** One pass of the inner loop: for each column in order, pop that bucket's last story into
      the line, or add a blank cell when the bucket is empty. After r earlier rows the buckets
      hold Remaining(_, r); afterwards they hold Remaining(_, r + 1). */
  method PopRow(buckets: map<State, seq<Story>>, r: nat, current: map<State, seq<Story>>, storiesLeft: int)
    returns (line: string, popped: map<State, seq<Story>>, left: int)
    requires PoppedUpTo(buckets, r, current, 0)
    ensures line == RenderRow(RowCells(buckets, r))
    ensures PoppedUpTo(buckets, r, popped, |Columns|)
    ensures left == storiesLeft - |Columns|
  {
    ghost var cells := RowCells(buckets, r);
    popped := current;
    left := storiesLeft;
    line := "\t";
    for j := 0 to |Columns|
      invariant line == "\t" + CellsText(cells[..j])
      invariant PoppedUpTo(buckets, r, popped, j)
      invariant left == storiesLeft - j
    {
      var cell;
      cell, popped := PopColumn(buckets, r, popped, j);
      RenderStep(cells, j);
      line := line + CellText(cell);
      left := left - 1;
    }
    assert cells[..|Columns|] == cells;
  }

  /** The first k rows of the table over the given buckets. */
  function TableRows(buckets: map<State, seq<Story>>, k: nat): (rows: seq<string>)
    ensures |rows| == k
  {
    if k == 0 then [] else TableRows(buckets, k - 1) + [RenderRow(RowCells(buckets, k - 1))]
  }

  /** Row r of the table is the rendering of row r's cells. */
  lemma {:induction false} TableRowsAt(buckets: map<State, seq<Story>>, k: nat, r: nat)
    requires r < k
    ensures TableRows(buckets, k)[r] == RenderRow(RowCells(buckets, r))
  {
    if r < k - 1 {
      TableRowsAt(buckets, k - 1, r);
    }
  }

  /** The pop loop: stories_left starts at the story count and drops by one per column, so the
      loop prints RowCount(storyCount) rows whatever the buckets hold. Row r shows, per column,
      that bucket's r-th story from the end or a blank; what the rows did not pop is left. */
  method EmitRows(buckets: map<State, seq<Story>>, storyCount: nat)
    returns (rows: seq<string>, leftover: map<State, seq<Story>>)
    requires forall c :: c in Columns ==> c in buckets
    ensures |rows| == RowCount(storyCount)
    ensures rows == TableRows(buckets, |rows|)
    ensures forall c :: c in Columns ==> c in leftover && leftover[c] == Remaining(buckets[c], |rows|)
  {
    leftover := buckets;
    rows := [];
    var storiesLeft: int := storyCount;
    while storiesLeft > 0
      invariant storiesLeft == storyCount - 5 * |rows|
      invariant storiesLeft > -5
      invariant rows == TableRows(buckets, |rows|)
      invariant PoppedUpTo(buckets, |rows|, leftover, 0)
      decreases storiesLeft
    {
      var line;
      line, leftover, storiesLeft := PopRow(buckets, |rows|, leftover, storiesLeft);
      rows := rows + [line];
    }
    forall c | c in Columns
      ensures c in leftover && leftover[c] == Remaining(buckets[c], |rows|)
    {
      var k :| 0 <= k < |Columns| && Columns[k] == c;
    }
  }

  /** What the report prints for one member: nothing when they have no stories; otherwise the
      summary line, RowCount(n) rows over the filled buckets, and a blank line. */
  function MemberLines(m: Member, stories: seq<Story>): seq<string>
  {
    if stories == [] then []
    else
      [SummaryLine(m.name, PointsLeftOf(stories), PointsTotalOf(stories), |stories|)]
      + TableRows(BucketsOf(stories), RowCount(|stories|))
      + [""]
  }

  lemma BucketsAgree(buckets: map<State, seq<Story>>, stories: seq<Story>)
    requires forall c :: c in buckets <==> c in Columns
    requires forall c :: c in buckets ==> buckets[c] == StoriesForState(stories, c)
    ensures buckets == BucketsOf(stories)
  {
  }

  /** The block of lines for one member, as the loop body prints it. */
  method MemberReport(m: Member, stories: seq<Story>) returns (lines: seq<string>)
    ensures lines == MemberLines(m, stories)
    ensures lines == [] <==> stories == []
  {
    if stories == [] {
      return [];
    }
    var buckets, pointsToGo, pointsTotal := FillBuckets(stories);
    var summary := SummaryLine(m.name, pointsToGo, pointsTotal, |stories|);
    BucketsAgree(buckets, stories);
    var rows, leftover := EmitRows(buckets, |stories|);
    lines := [summary] + rows + [""];
  }

  /** One member's block, as a function of the fetched pair. */
  function Block(): MemberStories -> seq<string>
  {
    (f: MemberStories) => MemberLines(f.member, f.stories)
  }

  /** All members' blocks, in member order. */
  function ReportBody(fetched: seq<MemberStories>): seq<string>
  {
    Flatten(fetched, Block())
  }

  lemma ReportStep(header: string, lines: seq<string>, fetched: seq<MemberStories>, i: nat, block: seq<string>)
    requires i < |fetched|
    requires lines == [header] + ReportBody(fetched[..i])
    requires block == Block()(fetched[i])
    ensures lines + block == [header] + ReportBody(fetched[..i + 1])
  {
    FlattenPrefix(fetched, i, Block());
    AppendAssoc([header], ReportBody(fetched[..i]), block);
  }

  /** The whole report: the header row, then each member's block. */
  method Report(fetched: seq<MemberStories>) returns (lines: seq<string>)
    ensures lines == ["owner\t" + "unstarted\t" + "rejected\t" + "started\t" + "finished\t" + "delivered\t"]
                     + ReportBody(fetched)
  {
    var header := HeaderLine();
    lines := [header];
    for i := 0 to |fetched|
      invariant lines == [header] + ReportBody(fetched[..i])
    {
      var block := MemberReport(fetched[i].member, fetched[i].stories);
      ReportStep(header, lines, fetched, i, block);
      lines := lines + block;
    }
    assert fetched[..|fetched|] == fetched;
  }

  /** A non-empty member's block: the summary line with the member's points to go, points in
      total and story count, then RowCount(n) table rows, then a blank line. */
  lemma MemberLinesShape(m: Member, stories: seq<Story>)
    requires stories != []
    ensures var lines := MemberLines(m, stories);
            var rows := RowCount(|stories|);
            && |lines| == rows + 2
            && lines[0] == SummaryLine(m.name, PointsLeftOf(stories), PointsTotalOf(stories), |stories|)
            && (forall r :: 0 <= r < rows ==> lines[r + 1] == RenderRow(RowCells(BucketsOf(stories), r)))
            && lines[rows + 1] == ""
  {
    var rows := RowCount(|stories|);
    forall r | 0 <= r < rows
      ensures MemberLines(m, stories)[r + 1] == RenderRow(RowCells(BucketsOf(stories), r))
    {
      TableRowsAt(BucketsOf(stories), rows, r);
    }
  }

  /** The stories one column shows over the first k rows, top row first. */
  function Printed(b: seq<Story>, k: nat): seq<Story>
  {
    if k == 0 then []
    else Printed(b, k - 1) + (match CellAt(b, k - 1) case None => [] case Some(s) => [s])
  }

  /** Over k rows a column shows the last min(k, |b|) stories of its bucket, newest first. */
  lemma {:induction false} PrintedReversed(b: seq<Story>, k: nat)
    ensures Printed(b, k) == Reverse(b[|b| - Shown(b, k)..])
  {
    if k > 0 {
      PrintedReversed(b, k - 1);
      if k <= |b| {
        var tail := b[|b| - k..];
        assert tail[1..] == b[|b| - (k - 1)..];
      }
    }
  }

  /** How many of bucket b's stories k rows show. */
  function Shown(b: seq<Story>, k: nat): nat
  {
    if k < |b| then k else |b|
  }

  /** Every story of a bucket is either printed once or left unprinted, none is printed twice,
      and the bucket is printed in full exactly when it holds at most k stories. */
  lemma PrintedColumn(b: seq<Story>, k: nat)
    ensures multiset(Printed(b, k)) + multiset(Remaining(b, k)) == multiset(b)
    ensures Remaining(b, k) == [] <==> |b| <= k
  {
    PrintedReversed(b, k);
    ReversePermutes(b[|b| - Shown(b, k)..]);
    assert b == Remaining(b, k) + b[|b| - Shown(b, k)..];
  }

  /** Bucketing two started stories puts both, in order, in the started column. */
  lemma TwoStartedBuckets(a: Story, b: Story)
    requires a.currentState == Started && b.currentState == Started
    ensures StoriesForState([a, b], Started) == [a, b]
    ensures forall c :: c != Started ==> StoriesForState([a, b], c) == []
  {
    assert [a, b] == [a] + [b];
    assert [a] == [] + [a];
    SelectSnoc([], a, HasState(Started));
    SelectSnoc([a], b, HasState(Started));
    forall c | c != Started
      ensures StoriesForState([a, b], c) == []
    {
      SelectSnoc([], a, HasState(c));
      SelectSnoc([a], b, HasState(c));
    }
  }

  /** The row count ignores how the stories spread over the buckets: two started stories give
      one row, which shows the later one, and the earlier one is never printed. */
  lemma TwoStartedStoriesShowOne(m: Member, a: Story, b: Story)
    requires a.currentState == Started && b.currentState == Started
    ensures var lines := MemberLines(m, [a, b]);
            |lines| == 3 && lines[1] == RenderRow([None, None, Some(b), None, None])
    ensures Remaining(BucketsOf([a, b])[Started], RowCount(2)) == [a]
  {
    TwoStartedRow(a, b);
    MemberLinesShape(m, [a, b]);
  }

  /** The one row over two started stories shows the later one in the started column. */
  lemma TwoStartedRow(a: Story, b: Story)
    requires a.currentState == Started && b.currentState == Started
    ensures RowCells(BucketsOf([a, b]), 0) == [None, None, Some(b), None, None]
    ensures BucketsOf([a, b])[Started] == [a, b]
  {
    TwoStartedBuckets(a, b);
    var buckets := BucketsOf([a, b]);
    assert BucketAt(buckets, Unstarted) == [];
    assert BucketAt(buckets, Rejected) == [];
    assert BucketAt(buckets, Started) == [a, b];
    assert BucketAt(buckets, Finished) == [];
    assert BucketAt(buckets, Delivered) == [];
    var cells := RowCells(buckets, 0);
    assert |cells| == 5;
    assert cells[0] == None && cells[1] == None && cells[2] == Some(b) && cells[3] == None && cells[4] == None;
  }


  /** The predicate of the member loop's skip. */
  function HasStories(): MemberStories -> bool
  {
    (f: MemberStories) => f.stories != []
  }

  /** Members without stories contribute nothing: the report body is the same with them left
      out. */
  lemma ReportSkipsEmptyMembers(fetched: seq<MemberStories>)
    ensures ReportBody(fetched) == ReportBody(Select(fetched, HasStories()))
  {
    forall x: MemberStories | !HasStories()(x)
      ensures Block()(x) == []
    {
    }
    FlattenSkipsEmpty(fetched, Block(), HasStories());
  }
}
