# pivotal-swimlanes, modelled in Dafny

pivotal-swimlanes shows a Pivotal Tracker project as swimlanes: one lane per project member,
one column per workflow state (unstarted, rejected, started, finished, delivered). It ships in
two forms:

- a Sinatra web application (`swimlanes.rb`). Its core is the `Developer` class, whose point
  totals are memoised in fields. Around it sit the per-member story selection, the
  `stories_for_state` helper, the pruning of the optional rejected and delivered columns, and the
  `next` route, which moves one story forward along `STATE_FORWARD_TRANSITION`;
- a command-line report (`project.rb`). It prints a header row and then, for each member with
  stories:
  - a summary line;
  - rows filled by popping one story per column from per-state buckets;
  - a blank line.

The model keeps the source's form:

- the transition table, the story selections and the point sums are functions;
- `Developer` is a class whose memo fields the two point methods update;
- the column pruning (`delete_if`), the header loop, the bucket-filling loop and the pop loop
  are methods with loops. Each is proved against a specification function;
- the `next` route is a method that updates a story object in place.

The tracker client is replaced by parameters: the stories a query would return are passed in.
Printing is replaced by returning the lines.

Modules:

- `Wrappers`: Option and Result.
- `Seqs`: generic selection (Ruby's `select`), flattening and reversal, with their lemmas.
- `Workflow`: the states, the column lists and the transition table.
- `Stories`: members, stories, the point sums and `stories_for_state`.
- `Swimlanes`: the web application's `Developer` class, the lanes, the column pruning and the
  `next` route.
- `Text`: decimal formatting and `join`.
- `Report`: the command-line report.

Two behaviours of the code differ from what a reader might expect, and the model follows the
code:

- One might expect one row per story of the largest bucket; the pop loop prints ceil(n/5) rows
  for n stories.
  `stories_left` drops by one per column, whether or not a story was popped. A bucket larger
  than that row count therefore keeps stories that are never printed.
  `Report.TwoStartedStoriesShowOne` exhibits this, and `Report.PrintedColumn` characterises it.
- Only the transitions in `STATE_FORWARD_TRANSITION` exist. Rejected has no successor, and no
  rule treats chores differently.

## Model

| member | source | states |
|---|---|---|
| Workflow.TransitionDomain | swimlanes.rb:6-11 | A state has a successor exactly when it is unstarted, started, finished or delivered. Rejected, accepted and any other state have none. |
| Workflow.NextIsPipelineStep | swimlanes.rb:6-11 | The table maps s to t exactly when t directly follows s in the pipeline unstarted, started, finished, delivered, accepted (both directions). |
| Workflow.AdvanceClimbs | swimlanes.rb:96-103 | k successful `next` transitions in a row move a story exactly k places up the pipeline and never past accepted. |
| Workflow.ForwardOnly | swimlanes.rb:96-103 | No sequence of one or more transitions returns a story to the state it started from. Five transitions in a row always fail. |
| Workflow.UnstartedToAccepted | swimlanes.rb:6-11 | An unstarted story reaches accepted after exactly four transitions, and the fifth fails. |
| Stories.PointsLeftIsActiveTotal | swimlanes.rb:33-38 | points_left equals points_total taken over only the stories in an active state. |
| Stories.PointsLeftAtMostTotal | swimlanes.rb:26-38 | 0 <= points_left <= points_total. The two are equal exactly when every story with a positive estimate is active. |
| Stories.StoriesForStateSpec | swimlanes.rb:56-62 | stories_for_state keeps exactly the stories in the given state (both directions), each as many times as it occurs in the input and none of the others, in input order, as a subsequence. |
| Stories.Partition | project.rb:21-33 | The per-state lists for distinct states together hold, as a multiset, exactly the stories whose state is among them. |
| Stories.GroupingByColumns | project.rb:21-33 | Bucketing by the five displayed states loses no story in one of those states. When every story is in one, the buckets are a permutation of the stories. |
| Swimlanes.LaneOfSpec | swimlanes.rb:46-51 | A member's lane holds exactly the stories whose owner is that member's name (both directions), each as many times as it occurs in the input, in input order. |
| Swimlanes.NonMemberStoryInNoLane | swimlanes.rb:46-51 | A story owned by no member's name appears in no lane. |
| Swimlanes.Developer.constructor | swimlanes.rb:18-24 | A new developer holds the given member and stories, and both memos are unset. |
| Swimlanes.Developer.PointsTotal | swimlanes.rb:26-31 | Returns the sum of the estimates, counting nil as 0, and stores it. A stored value is returned unchanged, and the stored value always equals that sum. |
| Swimlanes.Developer.PointsLeft | swimlanes.rb:33-38 | Returns the sum of the estimates of active stories, counting nil as 0, and stores it. A stored value is returned unchanged. |
| Swimlanes.Developer.All | swimlanes.rb:46-51 | Builds one fresh developer per member, in member order. Each holds that member's lane, with both memos unset. |
| Swimlanes.DroppedColumn | swimlanes.rb:86-91 | A column is dropped only when it is rejected or delivered and no story is in that state. |
| Swimlanes.PruneColumns | swimlanes.rb:87-91 | The `delete_if` keeps, in order, exactly the columns that are shown (both directions), as a subsequence of the input. |
| Swimlanes.TrackedStory.Update | swimlanes.rb:103 | Saving the story writes its local state to the saved state. |
| Swimlanes.Next | swimlanes.rb:96-104 | A missing story fails with UnknownStory. A state without a table entry fails with UnknownTransition and changes nothing. Otherwise the story moves to the table's successor, is saved, and the old and new states are reported. |
| Text.Digit | project.rb:35 | The digit character for d has code '0' + d. |
| Text.NatToString | project.rb:35 | A number's decimal form is non-empty, all digits, and has no leading zero. |
| Text.NatToStringRoundTrip | project.rb:35 | Reading the decimal form back gives the number. |
| Text.JoinFive | project.rb:35 | Joining five parts places the separator between each two neighbours and nowhere else. |
| Report.HeaderFields | project.rb:12-15 | The header fields read "unstarted", "rejected", "started", "finished", "delivered", each followed by a tab. |
| Report.HeaderLine | project.rb:14-16 | The header line is the text "owner", a tab, then unstarted, rejected, started, finished and delivered, each followed by a tab. |
| Report.ColumnBannerText | project.rb:35 | The summary line's tail is each of the five column names, in display order, after a tab, a bar and three spaces. |
| Report.FillBuckets | project.rb:21-33 | The first pass makes one bucket per column, holding that column's stories in input order. Stories in other states are dropped. It also returns points to go (active estimates) and points in total. |
| Report.CellsFor | project.rb:40-43 | A row holds one cell per column. Each cell is the column bucket's r-th story from the end, or blank. |
| Report.RowCount | project.rb:37-45 | The row count for n stories is ceil(n/5): 5·rows − 5 < n <= 5·rows. |
| Report.PopCell | project.rb:41 | Popping what r rows left of a bucket gives row r's cell and leaves what r + 1 rows leave. An empty bucket gives a blank cell. |
| Report.PopStep | project.rb:40-43 | Handling column j of row r moves the midway point to j + 1 and produces row r's cell for column j. |
| Report.PopColumn | project.rb:41 | One cell of the inner loop is row r's cell for column j. Afterwards column j's bucket holds what r + 1 rows leave and the later columns are untouched. |
| Report.PopRow | project.rb:39-44 | One pass of the inner loop renders row r's cells. It leaves every bucket as r + 1 rows leave it and lowers stories_left by the number of columns. |
| Report.TableRowsAt | project.rb:37-45 | Row r of the table is the rendering of row r's cells. |
| Report.EmitRows | project.rb:37-45 | The pop loop prints exactly RowCount(n) rows, whatever the buckets hold. Row r is the rendering of row r's cells, and each bucket keeps what RowCount(n) rows did not pop. |
| Report.BucketsAgree | project.rb:21-33 | Buckets holding each column's stories are the buckets of the specification. |
| Report.MemberReport | project.rb:18-47 | A member's block is empty exactly when they have no stories. Otherwise it is the summary, the rows over the filled buckets, and a blank line. |
| Report.Report | project.rb:14-48 | The report is the header row (its literal text) followed by each member's block, in member order. |
| Report.ReportSkipsEmptyMembers | project.rb:20 | The report body is the same when members without stories are removed first. |
| Report.MemberLinesShape | project.rb:35-46 | A non-empty block has RowCount(n) + 2 lines. Line 0 is the summary with points to go, points in total and story count. Line r + 1 is row r, and the last line is blank. |
| Report.PrintedReversed | project.rb:37-45 | Over k rows a column prints the last min(k, size) stories of its bucket, newest first. |
| Report.PrintedColumn | project.rb:37-45 | Each bucket's stories are either printed once or left unprinted, as a multiset. The whole bucket is printed exactly when it holds at most k stories. |
| Report.TwoStartedBuckets | project.rb:21-33 | Two started stories both land, in order, in the started bucket. Every other bucket is empty. |
| Report.TwoStartedRow | project.rb:37-45 | With two started stories, the first row shows the later story in the started column and blanks elsewhere. |
| Report.TwoStartedStoriesShowOne | project.rb:37-45 | With two started stories the block has one row. That row shows only the later story, and the earlier story stays unprinted. |

## Left out

- The tracker client is not part of this model: `Project.find`, `Membership.all`,
  `stories.all`, `Story.find` and the network behind them. Their results are parameters: the
  member list, and the stories per member or per project.
- The query filters of `stories.all` (owner initials, state list) happen on the tracker side.
  The model takes the returned stories as given.
- `Developer#stories`, when no stories were passed in, fetches them from the tracker. Every
  caller in the core passes them, so a developer's stories are a constant.
- Sinatra routing, sessions and the token, the `before` filter, the erb templates, the logger
  and the `redirect` after `next` are left out. `Next` returns the logged transition instead of
  logging it.
- The `blocked` route only looks the story up and redirects, and is left out.
- `public/js/application.js` is browser code, and is left out.
- `puts` and ARGV are left out. The report returns its lines.
- Workflow.State: a state the tracker reports under one of the six known names is always
  represented by that name's constructor, never as `Other` with that name. The type does not
  enforce this; the model assumes the client maps names to states this way.
- `Swimlanes.TrackedStory.Update`: only the state is sent to the tracker. The other story
  fields are not modelled.
