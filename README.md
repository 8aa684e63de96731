# featok core, modelled in Dafny

featok lets someone paste a list of product ideas, share the list, and have
visitors vote on each idea by swiping a card: right is a super like, up is an
up vote, left is neutral. This project models the client and server logic
behind that flow and proves what it promises:

- **Voting** (`Voting.dfy`): the voting hook. It holds a cursor into the ideas, a
  confirmation banner, a one-slot undo buffer and a re-entrancy flag. The
  class `VotingSession` has the vote and undo handlers, with the server's
  reply as an input. The replied idea is merged into the list by public id.
- **Swipe gesture** (`SwipeGesture.dfy`): the drag preview (direction and
  intensity) and the release classification with its velocity gate. The
  class `GestureState` holds the preview state.
- **Legacy swipe card** (`LegacySwipe.dfy`): the older two-button card, whose
  `isVoting` guard stops votes from overlapping. It also gives the card's
  animation target.
- **Submission form** (`SubmissionForm.dfy`):
  - the blank-line block parser: splitting at the regular expression
    `\n\s*\n`, dropping blank blocks, taking a title and a description from
    each block;
  - the toast list;
  - the submit guards;
  - the class `Form`.
- **Dashboard** (`Dashboard.dfy`):
  - the dash-line parser, as a loop method proved against a reference
    function;
  - the formatter that writes a collection back into the bulk text, with the
    round trip between the two;
  - the class `Home` with its collection, statistics and bulk-text handlers.
- **Ideas endpoint** (`IdeasRoute.dfy`): the POST handler's validation order
  and the records it asks the database to create. It is also connected to
  the body the submission form posts.
- **Idea statistics** (`IdeaStats.dfy`): score and total, the sorted copy
  (a permutation, ordered by the key), and the column-header toggle. The
  class `StatsTable` holds that state.
- **Menu** (`AppMenu.dfy`): the path-based rule table and the creator check.
  The class `Menu` holds the open flag and the creator flag.
- **Title generator** (`Summarize.dfy`): the fallbacks and the 50-character
  truncation. The extractive summarizer is a function parameter.
- **Shared modules**:
  - `Wrappers.dfy`: `Option`, for `null`, `undefined` and `None`;
  - `Text.dfy`: JavaScript and Python whitespace, trimming, and splitting and
    joining on a separator;
  - `IdeaTypes.dfy`: the stored idea and vote shapes.

## How state and the outside world are modelled

- Each event handler is atomic: it runs to completion before the next one
  starts.
- Network replies are inputs to the handler that awaits them. So are the
  stored creator id, the current time and the generated ids. A request
  the handler sends is returned as an out-parameter.
- React state variables become fields of a class, whose methods update them
  in place.
- Pure computations (parsers, comparators, rule tables) are functions.
- Pixel offsets and velocities are exact reals.
- Vote counters are natural numbers.

## Model

| member | source | states |
|---|---|---|
| Voting.MergeById | src/hooks/useVoting.ts:57-61 | The merged list has the same length; every entry with the replied idea's public id becomes that idea, and every other entry is unchanged |
| Voting.MergeKeepsIds | src/hooks/useVoting.ts:57-61 | Merging never changes which public id sits at which position |
| Voting.MergeIdempotent | src/hooks/useVoting.ts:57-61 | Merging the same reply twice equals merging it once |
| Voting.MergeAbsent | src/hooks/useVoting.ts:57-61 | A reply for an id that is not in the list leaves the list unchanged |
| Voting.VotingSession.constructor | src/hooks/useVoting.ts:6-9 | Starts at index 0, with no confirmation, no undo buffer and no vote in progress; the session invariant holds |
| Voting.VotingSession.HandleVote | src/hooks/useVoting.ts:11-78 | Blocked past the end or while voting, and then changes nothing. Otherwise it sends one request for the idea under the cursor. A reply that is ok, parsed and carries a non-empty id is merged: the cursor advances by 1 and the undo buffer holds (type, old idea). Any other reply leaves the list and cursor unchanged and clears the buffer. Either way the banner and the flag are cleared, and the invariant holds (cursor within the list; a pending undo refers to the idea just behind the cursor) |
| Voting.VotingSession.HandleUndo | src/hooks/useVoting.ts:80-112 | Without an undo buffer it sends nothing and changes nothing. A rejected reply changes nothing. An accepted reply merges the idea, clears the banner and the buffer, and steps the cursor back by 1, never below 0 by the invariant |
| Voting.VoteThenUndo | src/hooks/useVoting.ts:11-112 | An accepted vote followed by an accepted undo restores the cursor and empties the undo buffer |
| SwipeGesture.Preview | src/hooks/useSwipeGesture.ts:15-40 | Intensity lies in [0, 1] and exceeds 1/3 whenever a direction is previewed. Exactly which vote is previewed: super like iff the drag is horizontal-dominant and more than 50 right; neutral iff horizontal-dominant and more than 50 left; up iff vertical-dominant and more than 50 up. The previous direction is kept exactly for horizontal drags within ±50, and cleared exactly for vertical-dominant drags not more than 50 up |
| SwipeGesture.EndDirection | src/hooks/useSwipeGesture.ts:53-63 | Each vote type, as an if-and-only-if: superLike when horizontal-dominant and x > 100, neutral when horizontal-dominant and x < -100, up when not horizontal-dominant and y < -100 |
| SwipeGesture.Fired | src/hooks/useSwipeGesture.ts:46-65 | A vote fires exactly when a direction was classified and the faster axis's speed is at least 0.3, and then it is that direction |
| SwipeGesture.PreviewAgreesWithRelease | src/hooks/useSwipeGesture.ts:25-63 | When a release at some offset classifies a vote, a drag at the same offset previews that same vote |
| SwipeGesture.DownwardNeverVotes | src/hooks/useSwipeGesture.ts:55-63 | A release at least as vertical as horizontal that is not more than 100 upwards (ties included) never votes |
| SwipeGesture.ExitPose | src/hooks/useSwipeGesture.ts:66-76 | The card fades out and leaves right for superLike, left for neutral and upwards for up, tilted towards the side it leaves by |
| SwipeGesture.GestureState.constructor | src/hooks/useSwipeGesture.ts:12-13 | No previewed direction, intensity 0 |
| SwipeGesture.GestureState.HandleDrag | src/hooks/useSwipeGesture.ts:15-40 | The intensity and direction become what `Preview` gives (keeping the old direction when it says so); intensity stays in [0, 1] |
| SwipeGesture.GestureState.HandleDragEnd | src/hooks/useSwipeGesture.ts:42-86 | The handler is called at most once, with `Fired`'s vote; the card flies to that vote's exit pose, or springs back to rest; direction and intensity are reset on every path |
| LegacySwipe.AnimationTarget | src/components/SwipeInterface.tsx:49-50 | up gives (1000, 45), down gives (-1000, -45), no direction gives (0, 0), and only no direction gives (0, 0) |
| LegacySwipe.SwipeCard.constructor | src/components/SwipeInterface.tsx:22-23 | Not voting, no direction |
| LegacySwipe.SwipeCard.HandleVote | src/components/SwipeInterface.tsx:25-32 | While a vote is in flight it makes no call and changes nothing; otherwise it sets the flag and direction and calls back once with that type |
| LegacySwipe.SwipeCard.Settle | src/components/SwipeInterface.tsx:33-38 | Whether the callback resolved or rejected, both flags are cleared |
| LegacySwipe.NoOverlappingVotes | src/components/SwipeInterface.tsx:25-39 | Two clicks before the first vote settles reach the callback exactly once, with the first type; afterwards the card is idle again |
| SubmissionForm.SeparatorEnd | src/components/IdeaSubmissionForm.tsx:55 | A match of `\n\s*\n` found at a position lies within the text and is a line feed, whitespace only, and a line feed |
| SubmissionForm.SeparatorEndGreedy | src/components/IdeaSubmissionForm.tsx:55 | The match is greedy: no line feed lies between its end and the end of the whitespace run. There is no match at a position exactly when it holds no line feed or no line feed follows in the whitespace run after it |
| SubmissionForm.Cuts | src/components/IdeaSubmissionForm.tsx:55 | The split yields at least one range; the ranges start at the text's start, end at its end and lie within it |
| SubmissionForm.CutsSeparated | src/components/IdeaSubmissionForm.tsx:55 | Consecutive blocks are separated by exactly one blank-line separator |
| SubmissionForm.CutsLeftmost | src/components/IdeaSubmissionForm.tsx:55 | No separator starts inside any block: each cut is at the leftmost match |
| SubmissionForm.Blocks | src/components/IdeaSubmissionForm.tsx:55 | Definition (the text between consecutive cuts); its meaning is stated by BlocksProperties, Cuts, CutsSeparated, CutsLeftmost and OneBlock |
| SubmissionForm.BlocksProperties | src/components/IdeaSubmissionForm.tsx:55 | There is at least one block, and no block contains a blank line |
| SubmissionForm.OneBlock | src/components/IdeaSubmissionForm.tsx:55 | Text without a blank line is a single block: itself |
| SubmissionForm.StripMarker | src/components/IdeaSubmissionForm.tsx:57 | `^[-*•]?\s*` removed: the result is a suffix of the line that does not start with whitespace; what is cut off is the marker when the line starts with one, then whitespace only |
| SubmissionForm.ToIdea | src/components/IdeaSubmissionForm.tsx:56-59 | Title trimmed and one line; description trimmed; the description is non-empty whenever the title is; a one-line block's description is its title |
| SubmissionForm.ToIdeaFields | src/components/IdeaSubmissionForm.tsx:56-59 | The title is the first line without its marker and leading whitespace, trimmed; the description is the other lines joined by line feeds and trimmed, or the title when that is empty |
| SubmissionForm.MarkedBlockIdea | src/components/IdeaSubmissionForm.tsx:56-59 | For every optional marker (`-`, `*`, `•` and a space), trimmed one-line title and trimmed description, the block `marker + title + "\n" + description` reads back as exactly that title and description; without a description, the title stands in for it |
| SubmissionForm.IdeasPerBlock | src/components/IdeaSubmissionForm.tsx:55 | The number of ideas equals the number of non-blank blocks |
| SubmissionForm.IdeasOfAppend | src/components/IdeaSubmissionForm.tsx:55-60 | Ideas are produced block by block in order: the ideas of two block lists joined are the ideas of each, joined |
| SubmissionForm.IdeasOfOne | src/components/IdeaSubmissionForm.tsx:55-60 | A whitespace-only block gives no idea; any other block gives exactly its own idea |
| SubmissionForm.ParsedIdeasWellFormed | src/components/IdeaSubmissionForm.tsx:55-60 | Every parsed idea has a trimmed one-line title and a trimmed description, non-empty when the title is |
| SubmissionForm.ParseIdeas | src/components/IdeaSubmissionForm.tsx:53-61 | Definition (the ideas of the blocks of the text); its meaning is stated by ParsedIdeasWellFormed, IdeasOfAppend, IdeasOfOne and the Blocks and Cuts rows |
| SubmissionForm.SingleIdea | src/components/IdeaSubmissionForm.tsx:55-60 | A non-blank text without a blank line parses to exactly the idea of that one block |
| SubmissionForm.BlankTextNoIdeas | src/components/IdeaSubmissionForm.tsx:55 | Empty or whitespace-only text parses to no ideas |
| SubmissionForm.PlainLineOneIdea | src/components/IdeaSubmissionForm.tsx:53-61 | A trimmed single line with no list marker parses to one idea whose title and description are that line |
| SubmissionForm.WithoutId | src/components/IdeaSubmissionForm.tsx:49 | The kept toasts all have another id and come from the list |
| SubmissionForm.WithoutIdAppend | src/components/IdeaSubmissionForm.tsx:49 | Filtering by id distributes over concatenation, so the kept toasts stay in order |
| SubmissionForm.WithoutAbsentId | src/components/IdeaSubmissionForm.tsx:49 | Filtering by an id no toast has keeps the list unchanged |
| SubmissionForm.ExpiryUndoesShow | src/components/IdeaSubmissionForm.tsx:45-50 | Showing a toast with a fresh id and then expiring it gives back the list before |
| SubmissionForm.Form.constructor | src/components/IdeaSubmissionForm.tsx:21-24 | Empty text, no ideas, no toasts, not submitting; the ideas agree with the text |
| SubmissionForm.Form.ShowToast | src/components/IdeaSubmissionForm.tsx:45-47 | Exactly one toast, stamped with the current time, is appended |
| SubmissionForm.Form.ExpireToast | src/components/IdeaSubmissionForm.tsx:48-50 | Exactly the toasts with that id are removed |
| SubmissionForm.Form.HandleInputChange | src/components/IdeaSubmissionForm.tsx:63-66 | The text and its parsed ideas are replaced together |
| SubmissionForm.Form.ClearAllAsWritten | src/components/IdeaSubmissionForm.tsx:145 | The "Clear All" button as written: empties the text and leaves the ideas |
| SubmissionForm.Form.ClearAll | src/components/IdeaSubmissionForm.tsx:145 | "Clear All" as intended: empties the text and the ideas |
| SubmissionForm.Form.HandleSubmit | src/components/IdeaSubmissionForm.tsx:68-114 | A request is sent exactly when some idea is parsed and a creator id is stored, and it carries those ideas and that id. It redirects to `/swipe/<groupId>` exactly on an ok answer. It always appends one toast, which is a success toast exactly when it redirects. The submitting flag is false afterwards unless nothing was sent |
| SubmissionForm.ClearThenSubmitSendsStaleIdea | src/components/IdeaSubmissionForm.tsx:145 | As written: after Clear All the box holds no idea, yet submitting posts the old ideas |
| SubmissionForm.ClearThenSubmitSendsNothing | src/components/IdeaSubmissionForm.tsx:145 | As intended: after Clear All the ideas agree with the empty box and submitting sends nothing |
| Dashboard.DescriptionOf | src/app/page.tsx:78-79 | The description is empty, or it is the next line trimmed and is not itself a dash line. It is non-empty exactly when a next line exists, is not blank once trimmed and does not start with `-` |
| Dashboard.OneIdeaPerDashLine | src/app/page.tsx:73-80 | The number of ideas equals the number of lines that start with `-` once trimmed |
| Dashboard.ParsedShape | src/app/page.tsx:76-79 | From lines without line feeds, every idea has a trimmed one-line title and a trimmed one-line description that does not start with `-` |
| Dashboard.TextShape | src/app/page.tsx:72-84 | The ideas parsed from any text are ones the formatter can write back |
| Dashboard.ParseLines | src/app/page.tsx:72-84 | Definition (the reference parse over the lines); its meaning is stated by OneIdeaPerDashLine, ParsedShape, ParseStep, ParseIdeas and FormatThenParse |
| Dashboard.ParseIdeas | src/app/page.tsx:72-84 | The reduce over the lines yields exactly the reference parse of the text's lines |
| Dashboard.ParseStep | src/app/page.tsx:74-82 | One reducer step pushes exactly the entry for the current line in front of what the remaining lines parse to |
| Dashboard.Renders | src/app/page.tsx:41-42 | One rendered entry per idea, in order |
| Dashboard.RenderLinesOf | src/app/page.tsx:42 | A rendered idea splits into its dash line and, when present, its description line |
| Dashboard.FormatLines | src/app/page.tsx:41-43 | The formatted text splits into the rendered lines with one empty line between ideas |
| Dashboard.Format | src/app/page.tsx:41-43 | The text for the edit box is empty exactly when the collection has no ideas; its lines are stated by FormatLines and its meaning by the round trips FormatThenParse and ParseFormatParse |
| Dashboard.TitleRoundTrip | src/app/page.tsx:77 | The dash line written for a trimmed title is a dash line, and its parsed title is that title |
| Dashboard.DescriptionRoundTrip | src/app/page.tsx:78-79 | A written description line is taken as the description and starts no idea |
| Dashboard.ParseFormattedLines | src/app/page.tsx:72-84 | The formatted lines parse back to the ideas they were written from |
| Dashboard.FormatThenParse | src/app/page.tsx:41-84 | Round trip: formatting writable ideas and parsing the text gives the same ideas |
| Dashboard.ParseFormatParse | src/app/page.tsx:41-84 | For any text, parsing, formatting and parsing again gives the first parse |
| Dashboard.FindIndex | src/app/page.tsx:39 | The first collection with the id, or the length when none has it |
| Dashboard.Find | src/app/page.tsx:39 | A found collection is one of the collections and has the id; nothing is found exactly when no collection has the id |
| Dashboard.Home.constructor | src/app/page.tsx:27-31 | Empty name, no selection, no collections, empty text, no statistics |
| Dashboard.Home.CreateCollection | src/app/page.tsx:61-70 | Sends nothing exactly when the name is blank. A created collection is appended and the name box emptied. A failure changes nothing |
| Dashboard.Home.FetchStats | src/app/page.tsx:86-93 | Only the entry for the given collection changes; all others are kept |
| Dashboard.Home.SyncBulkIdeas | src/app/page.tsx:37-47 | A selected, found collection is formatted into the text; otherwise the text stays |
| Dashboard.Home.AddBulkIdeas | src/app/page.tsx:99-108 | Sends nothing exactly when there is no selection or the text is blank; otherwise it sends the text's parsed ideas to the selected collection |
| Dashboard.SelectThenResend | src/app/page.tsx:37-108 | Selecting a collection of writable ideas and sending the text back sends exactly that collection's ideas |
| Dashboard.ParsedMeansNotBlank | src/app/page.tsx:100 | A text from which an idea parses is not blank, so the guard lets it through |
| IdeasRoute.FirstFailing | src/app/api/ideas/route.ts:26-33 | The loop stops at the first idea that is null or lacks a truthy title and description; every idea before it passes |
| IdeasRoute.Records | src/app/api/ideas/route.ts:42-53 | One record per idea, in order: record i has the idea's title and description, id i, the shared group id, the creator id and order i |
| IdeasRoute.Post | src/app/api/ideas/route.ts:6-67 | Validation order: a body that is not JSON, or is null, gives 500; then a missing, non-array or empty `ideas` gives 400; then a falsy creator id gives 400; then the first null idea gives 500 and the first invalid idea 400. Every failure returns before any record is requested. A connection failure gives 500. Otherwise exactly `Records` is requested, and success answers 200 with the group id and count = number of ideas |
| IdeasRoute.FormIdeaPasses | src/app/api/ideas/route.ts:27 | An idea from the submission form passes the check exactly when its title is non-empty |
| IdeasRoute.FormRequestValidation | src/app/api/ideas/route.ts:26-33 | A request the form sends passes the first two checks, and it is rejected by the idea check (with 400, never 500) exactly when some idea has an empty title |
| IdeaStats.Score | src/components/ui/idea-stats.tsx:26-32 | total ≤ score ≤ 3·total; the score equals the total exactly when there are only neutral votes, and equals 3·total exactly when there are only super likes |
| IdeaStats.Total | src/components/ui/idea-stats.tsx:30-32 | The total is zero exactly when the idea has no votes of any kind |
| IdeaStats.KeyValue | src/components/ui/idea-stats.tsx:38-60 | The key compared for an idea never exceeds its score, and any key other than the score never exceeds its total |
| IdeaStats.Compare | src/components/ui/idea-stats.tsx:34-62 | Under desc, a is kept before b exactly when a's key is at least b's; under asc, exactly when it is at most b's |
| IdeaStats.Insert | src/components/ui/idea-stats.tsx:34 | Inserting adds exactly one element (multiset) |
| IdeaStats.SortBy | src/components/ui/idea-stats.tsx:34 | The sorted copy is a permutation of the ideas |
| IdeaStats.InsertRanked | src/components/ui/idea-stats.tsx:38-61 | Inserting into a ranked sequence keeps it ranked |
| IdeaStats.SortRanked | src/components/ui/idea-stats.tsx:34-62 | The sorted copy is non-increasing in the key under desc and non-decreasing under asc |
| IdeaStats.InsertWithKey | src/components/ui/idea-stats.tsx:34-62 | Among the elements with any one key value, the inserted element comes first and the others keep their order |
| IdeaStats.SortStable | src/components/ui/idea-stats.tsx:34-62 | The sort is stable: for every key value, the ideas with that value appear in the sorted copy in their input order |
| IdeaStats.Toggle | src/components/ui/idea-stats.tsx:64-71 | The clicked key becomes current; the same key flips the order, and another key resets it to desc |
| IdeaStats.ToggleTwice | src/components/ui/idea-stats.tsx:64-71 | Clicking the current column twice restores the state |
| IdeaStats.ToggleNewTwice | src/components/ui/idea-stats.tsx:64-71 | Clicking another column twice sorts by it ascending |
| IdeaStats.StatsTable.constructor | src/components/ui/idea-stats.tsx:23-24 | Initially sorted by score, descending |
| IdeaStats.StatsTable.ToggleSort | src/components/ui/idea-stats.tsx:64-71 | The state becomes `Toggle` of the old state |
| IdeaStats.StatsTable.SortedIdeas | src/components/ui/idea-stats.tsx:34-62 | A fresh array holding a permutation of the ideas, ranked by the current key and order; the input array and the state are not modified |
| AppMenu.GroupText | src/components/ui/app-menu.tsx:53 | The group id as interpolated into a path: empty exactly when the id is present and empty (an absent id prints as `undefined`) |
| AppMenu.ForGroup | src/components/ui/app-menu.tsx:61 | The entry keeps its icon and label; its path extends the base path, and equals it exactly when the group id is present and empty |
| AppMenu.MenuItems | src/components/ui/app-menu.tsx:49-82 | The list is empty exactly when no rule applies (and then nothing is rendered); it has at most two items, with distinct labels |
| AppMenu.CreatorSwipeMenu | src/components/ui/app-menu.tsx:51-56 | The creator on a voting page gets Edit List → `/edit/<groupId>` and My Lists |
| AppMenu.VisitorSwipeMenu | src/components/ui/app-menu.tsx:51-81 | A visitor on a voting page gets no items |
| AppMenu.EditMenu | src/components/ui/app-menu.tsx:59-64 | An edit page gives View List → `/swipe/<groupId>` and My Lists, creator or not |
| AppMenu.FixedPageMenus | src/components/ui/app-menu.tsx:67-78 | `/my-lists` gives New List → `/`; `/` gives My Lists |
| AppMenu.CreatorOnlyOnSwipe | src/components/ui/app-menu.tsx:51-64 | The creator flag changes the items only on voting pages |
| AppMenu.NeverLinksToSelf | src/components/ui/app-menu.tsx:49-82 | No item links to the page it is shown on |
| AppMenu.Menu.constructor | src/components/ui/app-menu.tsx:20-21 | Closed, not the creator |
| AppMenu.Menu.CheckCreatorStatus | src/components/ui/app-menu.tsx:26-43 | The creator flag becomes set exactly when a group id and a stored creator id are present, the fetch succeeds, and the group's first idea was created by that id; it is never cleared; the open flag is kept |
| AppMenu.Menu.ToggleOpen | src/components/ui/app-menu.tsx:148 | Flips the open flag only |
| AppMenu.Menu.ClickItem | src/components/ui/app-menu.tsx:129-132 | Closes the menu and navigates to the item's target, which is never the current page |
| Summarize.Sentences | src/lib/summarize.py:15 | One sentence `title. description` per idea, in list order |
| Summarize.Strip | src/lib/summarize.py:32 | The result has no Python whitespace at either end and is a middle part of the input: what lies before and after it is Python whitespace only |
| Summarize.Shorten | src/lib/summarize.py:34-35 | At most 50 characters. Longer input becomes its first 47 characters plus `...`, exactly 50 long. Shorter input is unchanged |
| Summarize.ShortenIdempotent | src/lib/summarize.py:34-35 | Shortening twice equals shortening once |
| Summarize.GenerateTitle | src/lib/summarize.py:9-37 | An empty list gives "My Ideas". An empty summary gives the first idea's title. Otherwise the first summary sentence, stripped and shortened to at most 50 characters |
| Summarize.TitleLength | src/lib/summarize.py:28-37 | A title longer than 50 characters can only be the first idea's title, from the empty-summary fallback |
| Summarize.SummaryInputOne | src/lib/summarize.py:15 | One idea gives the input `title. description` |
| Summarize.SummaryInputAppend | src/lib/summarize.py:15 | Each further idea appends a space and its sentence, so the input keeps list order |
| Summarize.SummaryInput | src/lib/summarize.py:15 | The summarised text is empty exactly when there are no ideas (each idea contributes at least `. `) |
| Text.TrimBy | src/app/page.tsx:75 | The trimmed string starts and ends with no whitespace and is no longer than the input |
| Text.TrimMiddle | src/app/page.tsx:75 | The trimmed string is a middle part of the input: what lies before and after it is whitespace only |
| Text.TrimEmptyBy | src/app/page.tsx:100 | Trimming gives the empty string exactly when the string is all whitespace |
| Text.TrimIdentity | src/app/page.tsx:75 | Trimming changes nothing exactly when there is nothing to trim |
| Text.Lines | src/app/page.tsx:73 | Splitting at line feeds gives at least one piece, and no piece contains a line feed |
| Text.JoinLines | src/components/IdeaSubmissionForm.tsx:56-58 | Joining the pieces with line feeds gives the text back |
| Text.LinesOfJoin | src/app/page.tsx:43 | Splitting lines joined with line feeds gives the lines back |

## Left out

- Network, database and browser storage are not modelled as effects. This covers `fetch`/axios, `connectDB`, `ProductIdea.create`, `localStorage` and the created-groups list. Their results are handler inputs; what a handler sends is its result.
- Timers are left out. This covers the 800 ms delay before the cursor advances, the 3 s toast timeout and the 1 s redirect delay. A toast's expiry is the separate method `Form.ExpireToast`; the redirect is a returned path.
- Async interleaving is left out: each handler is atomic. This includes an undo that fires while a vote is suspended. The undo request's missing vote type, and what the server does with it, are server code that is not part of this model.
- The undo handler reads the reply's JSON without the id check the vote path has. A reply whose body does not parse counts as rejected, since the thrown error is caught. An absent `shareableId` is read as the empty string. Provided no stored idea has the empty id (the server generates ten-character ids), an `undefined` id then matches no stored idea, as in the source; an idea stored with the empty id would be replaced in the model where the source replaces nothing.
- The dashboard's `fetchCollections` is left out, together with the refresh after `addBulkIdeas` and the stats fetches it starts. They are network reads whose results would only replace fields wholesale.
- IdeasRoute.Post: when a record creation fails after others succeeded, the records already written stay in the database. The model only says that the response is 500 and which records were requested. Mongoose casting of the record fields is left out.
- JSON numbers are modelled as integers, since only their truthiness is read.
- The score and vote percentage bars are left out. So is `Math.max` over an empty list (idea-stats.tsx lines 73-74). Both are floating-point display.
- The LSA summarizer's internals, its tokenizer and the script's command-line entry point are left out. The summarizer is a function parameter.
- The regular-expression class `\s` and `trim` use the fixed ECMAScript whitespace set. Python's `strip` uses the fixed `str.isspace` set.
- The menu's creator flag is never reset when the group id changes, and the model keeps that behaviour. A change of group id (a new effect run) is not modelled beyond calling the creator check again.
- SwipeGesture.GestureState.HandleDragEnd: the card's animation steps are not separate states. These are the fly-off, the await of the vote handler and the reset to the resting pose. The model returns the first target pose only.
- Rendering and styling of every component, and the UI-only files, are not part of this model.

## Findings

| source | as written | input that shows it | evidently intended | confidence | as-written member | corrected member |
|---|---|---|---|---|---|---|
| src/components/IdeaSubmissionForm.tsx:145 | "Clear All" empties the text box but not the parsed ideas, so the counter and the submit button still see the old ideas | type `A`, press Clear All, press Submit: the idea `A` is posted although the box is empty | clearing also empties the parsed ideas, so the submit guard refuses with "Please add at least one idea" | medium, not executed | SubmissionForm.ClearThenSubmitSendsStaleIdea | SubmissionForm.ClearThenSubmitSendsNothing |
