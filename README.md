# PollApp: poll and vote bookkeeping

A Dafny model of the core of PollApp. PollApp is a small web application: an
ASP.NET Core API stores polls, their answer options and vote records, and a
React client creates polls and votes on them.

- **Server** (`PollController` over the records of `Poll.cs`):
  - The database context is modelled as three tables in the class
    `PollApi.PollController`: `polls`, `pollOptions` and `pollVotes`. Each is a
    sequence of rows in insertion order.
  - The identity columns are counters that hand out keys.
  - Each request is one atomic step on the tables:
    - `GetPolls` and `GetPoll` are functions over the tables.
    - `Vote` and `PostPoll` are methods that change the tables.
  - The class invariant `Valid()` has five parts:
    - poll keys are unique and below the next key;
    - option keys are unique and below the next key;
    - every option and every vote record names an existing poll;
    - there is at most one vote record per (poll, address);
    - for every poll, the sum of its option counters equals the sum it was
      posted with plus its number of vote records, less 2^32 for every time
      one of its counters wrapped from `int.MaxValue` to `int.MinValue`.
      The posted sums and the wrap counts are ghost maps of the class.
  - `Vote` and `PostPoll` keep the invariant. They also leave every other
    poll's `GetPoll` answer unchanged.
- **Client editor** (`CreatePoll.tsx`): the option list is a `seq<string>`, and
  each handler is a function that builds the next list. Any run of edits keeps
  at least two entries (`CreatePoll.RunKeepsMinimum`). The submit payload is
  one zero-count option per entry.
- **Client poll page** (`PollDetail.tsx`): the page state is the class
  `PollDetail.PollDetailView`, including the browser's list of voted polls.
  `HandleVote` is modelled as a method. The following are pure functions with
  proved properties:
  - the local +1 on the chosen option;
  - the chart projection;
  - the panel gating (exactly one of the vote form and the results shows).
- **End to end** (`EndToEnd`):
  - binding the client's request body to a server `Poll`;
  - how the browser's `required` check relates to the server's `[Required]`
    validation;
  - a create-then-vote-twice scenario proved on the store;
  - where the server reads the option id of the page's vote request (see
    "## Findings").

The server's integers are C# `int`. Only the vote counter keeps that width
in the model: `Votes++` wraps round at `int.MaxValue` (`Tables.Inc32`),
which is what the default unchecked context does. Keys and the key counters
are unbounded integers (see "## Left out"). The client's JavaScript numbers
are modelled as unbounded integers.

The clock (`DateTime.UtcNow`) and the client's address
(`RemoteIpAddress?.ToString()`) are parameters (`now`, `userIp`). A missing
address is `None`. The database's `==` on a null address is modelled by
`Option` equality: EF Core translates `v.UserIP == userIP` with null
semantics, so a null address matches a null address.

Three facts about the code shape the model:

- `PostPoll` stores the vote counts the request carries and never resets
  them to zero.
- A vote's counter update and its record are committed by one
  `SaveChangesAsync`, so `Vote` is one step.
- The browser's voted list is an array of route ids.

## Model

| member | source | states |
|---|---|---|
| Models.IsWhiteSpace | PollApp/PollApp.Server/Models/Poll.cs:11-12 | The characters .NET's `char.IsWhiteSpace` accepts, which `[Required]` discounts: U+0009 to U+000D, space, U+0085, U+00A0, U+1680, U+2000 to U+200A, U+2028, U+2029, U+202F, U+205F and U+3000 |
| Models.HasText | PollApp/PollApp.Server/Models/Poll.cs:11-12 | `[Required]` on a string: some character is not white space, so a string that passes is not empty; null is modelled as the empty string |
| Models.IsValidPoll | PollApp/PollApp.Server/Models/Poll.cs:23-24 | Model validation of a posted poll: the question and every option's text pass `[Required]`, so none of them is empty; only the explicit `[Required]` attributes are checked (see "## Left out") |
| Models.NewPoll | PollApp/PollApp.Server/Models/Poll.cs:7-17 | A new poll has no options and carries the creation time, and with no question it fails validation |
| Models.NewPollOption | PollApp/PollApp.Server/Models/Poll.cs:19-30 | A new option has zero votes, and with no text it fails validation |
| Tables.Inc32 | PollApp/PollApp.Server/Controllers/PollController.cs:74 | `Votes++` grows the counter exactly when it is below `int.MaxValue`; the result is the old value + 1, less 2^32 at `int.MaxValue` |
| Tables.FindOption | PollApp/PollApp.Server/Controllers/PollController.cs:59 | Finds the first option row with the key; None exactly when no row has it |
| Tables.OptionBelongsTo | PollApp/PollApp.Server/Controllers/PollController.cs:59-60 | Vote's guard: the first row with the option key exists and names the poll |
| Tables.BelongsIffSomeRow | PollApp/PollApp.Server/Controllers/PollController.cs:59-63 | With unique keys, Vote's guard passes iff some row has both the option key and the poll as owner |
| Tables.BelongsAt | PollApp/PollApp.Server/Controllers/PollController.cs:59-63 | With unique keys, every option row passes the guard for its own key and owner |
| Tables.OptionsOf | PollApp/PollApp.Server/Controllers/PollController.cs:33 | `Include(p => p.Options)`: the option rows that name the poll, in table order, never more rows than the table holds |
| Tables.OptionsOfMembers | PollApp/PollApp.Server/Controllers/PollController.cs:33 | `Include(p => p.Options)` loads exactly the option rows whose `PollID` is the poll |
| Tables.OptionsOfMembersAll | PollApp/PollApp.Server/Controllers/PollController.cs:26 | The same membership fact for every poll at once, as `GetPolls` needs it |
| Tables.AppendNewVoterKeepsOneVote | PollApp/PollApp.Server/Controllers/PollController.cs:67-79 | Appending a record for a (poll, address) pair that has not voted keeps one record per pair, and the pair has now voted |
| Tables.HasVoted | PollApp/PollApp.Server/Controllers/PollController.cs:67 | `AnyAsync(v => v.PollID == id && v.UserIP == userIP)`: some record names the poll and the address, a missing address matching a missing one |
| Tables.OptionsOfAppend | PollApp/PollApp.Server/Controllers/PollController.cs:49 | A poll's options in an extended table are its old options followed by its options among the new rows |
| Tables.OptionsOfNone | PollApp/PollApp.Server/Controllers/PollController.cs:49 | Rows that all name other polls give this poll no options |
| Tables.OptionsOfAll | PollApp/PollApp.Server/Controllers/PollController.cs:49 | Rows that all name this poll are all of its options, in order |
| Tables.OptionsOfUpdateOther | PollApp/PollApp.Server/Controllers/PollController.cs:74 | Updating another poll's option row leaves this poll's options unchanged |
| Tables.TallyAppend | PollApp/PollApp.Server/Controllers/PollController.cs:49 | A poll's counter sum over a concatenation is the sum of the two parts |
| Tables.TallyNone | PollApp/PollApp.Server/Controllers/PollController.cs:49 | Rows that name other polls add nothing to this poll's counter sum |
| Tables.TallyUpdate | PollApp/PollApp.Server/Controllers/PollController.cs:74 | Changing one option's counter changes its poll's sum by the difference and no other poll's sum |
| Tables.VoteCountNone | PollApp/PollApp.Server/Controllers/PollController.cs:75-79 | Records that name other polls count no votes for this poll |
| Tables.VoteCountAppend | PollApp/PollApp.Server/Controllers/PollController.cs:75-79 | Appending a record adds one vote to its own poll's count and none to any other |
| PollApi.FindPoll | PollApp/PollApp.Server/Controllers/PollController.cs:33-34 | `FirstOrDefault(p => p.ID == id)`: the first row with the key; None exactly when the key is not in the table |
| PollApi.FindPollAppend | PollApp/PollApp.Server/Controllers/PollController.cs:49 | After adding a row, lookups find the old row if there was one, else the new row when its key matches |
| PollApi.PollWithOptions | PollApp/PollApp.Server/Controllers/PollController.cs:33-34 | None exactly when no poll row has the key; otherwise a poll with that key, the question and time of a row with that key, and only options that name it |
| PollApi.PollWithOptionsComplete | PollApp/PollApp.Server/Controllers/PollController.cs:33-34 | A poll that is found carries every option row it owns and no other |
| PollApi.CountVoteAt | PollApp/PollApp.Server/Controllers/PollController.cs:74 | Counting a vote keeps every row's key and owner, keeps the chosen row's text and gives it the wrapped +1 count, and changes no other row |
| PollApi.CountVoteKeepsTallies | PollApp/PollApp.Server/Controllers/PollController.cs:74-79 | A +1 on one option with one record for its poll keeps "counter sum = posted sum + record count − 2^32 × wraps" for every poll, counting one more wrap for that option's poll exactly when its counter was at `int.MaxValue` |
| PollApi.VoteKeepsValid | PollApp/PollApp.Server/Controllers/PollController.cs:59-81 | An accepted vote keeps every table invariant, with one more wrap counted for the poll when the chosen counter was at `int.MaxValue` |
| PollApi.VoteTouchesOnlyItsPoll | PollApp/PollApp.Server/Controllers/PollController.cs:74-79 | Counting a vote for an option of a poll leaves every other poll's options as they were; the voter has then voted in the poll, and the poll has exactly one more record |
| Tables.OptionsOfAppendOwned | PollApp/PollApp.Server/Controllers/PollController.cs:49 | Appending rows that all name a poll that no existing row names: those rows are exactly its options, and every other poll keeps its options |
| PollApi.PollIdsAppend | PollApp/PollApp.Server/Controllers/PollController.cs:49 | Adding a poll row adds exactly its key to the set of poll keys |
| PollApi.PostedRows | PollApp/PollApp.Server/Controllers/PollController.cs:49 | The stored options are the requested ones in order, with fresh consecutive keys, owned by the new poll, keeping their text and their count |
| PollApi.AppendFreshOptionKeys | PollApp/PollApp.Server/Controllers/PollController.cs:49-50 | Rows keyed from the next option key keep option keys unique and below the new next key |
| PollApi.AppendOwnedRows | PollApp/PollApp.Server/Controllers/PollController.cs:49-50 | After a poll is added with its own rows, every option and record still names an existing poll |
| PollApi.NothingOwnedByNextPoll | PollApp/PollApp.Server/Controllers/PollController.cs:49-50 | No poll, option or record uses the key the next poll will get |
| PollApi.PostKeepsTallies | PollApp/PollApp.Server/Controllers/PollController.cs:49-50 | Adding a poll's rows, with its posted sum recorded, keeps the counter invariant for every poll |
| PollApi.PostKeepsValid | PollApp/PollApp.Server/Controllers/PollController.cs:46-53 | A post keeps every table invariant, with the new poll's posted sum recorded and no wraps counted for it; the new key was not in use |
| PollApi.PostedPollIsFound | PollApp/PollApp.Server/Controllers/PollController.cs:33-34 | After a post the new key finds the new poll with exactly its options; every other key answers as before |
| PollApi.PollController.constructor | PollApp/PollApp.Server/Data/PollContext.cs:7-15 | An empty database satisfies the invariant |
| PollApi.PollController.GetPolls | PollApp/PollApp.Server/Controllers/PollController.cs:24-27 | One poll per row in table order, each with exactly the options that name it |
| PollApi.PollController.GetPoll | PollApp/PollApp.Server/Controllers/PollController.cs:31-42 | None (404) exactly when no poll has the key; otherwise that poll's row with exactly its options |
| PollApi.PollController.GetPollAgreesWithGetPolls | PollApp/PollApp.Server/Controllers/PollController.cs:24-42 | `GetPoll(id)` returns p exactly when p is in `GetPolls()` with key id |
| PollApi.PollController.NoPollNoOption | PollApp/PollApp.Server/Controllers/PollController.cs:59-63 | A vote on a poll that does not exist is always 404 |
| PollApi.PollController.Vote | PollApp/PollApp.Server/Controllers/PollController.cs:57-84 | 404 iff the option is missing or owned by another poll; otherwise 400 "already voted" iff a record exists for (poll, address), whatever the option; failures change nothing; success bumps exactly that counter, appends exactly one record, and marks the address as having voted; the posted sums never change, and the poll's wrap count grows by one exactly when the counter was at `int.MaxValue`; the invariant holds and other polls are unchanged |
| PollApi.PollController.SavePoll | PollApp/PollApp.Server/Controllers/PollController.cs:49-50 | `Add` then `SaveChangesAsync`: the poll row and its option rows are appended with the next keys, the key counters advance by one and by the number of rows, the vote counter is untouched, the new poll's posted sum is its rows' count sum and its wrap count is 0 with every other poll's unchanged, the new poll owns exactly the new rows and other polls' options are unchanged, and the invariant holds |
| PollApi.PollController.PostPoll | PollApp/PollApp.Server/Controllers/PollController.cs:46-53 | 400 iff the question or an option text fails `[Required]`, with no table, no key counter and no posted sum or wrap count changed; otherwise the poll gets the next key and the current time, the poll key counter advances by one, the option key counter by the number of options, and the vote key counter is untouched; only the new poll's posted sum (its options' counts) and wrap count (0) are set; its options are stored with fresh keys and the counts the request carried; the new poll is then found by `GetPoll`; the invariant holds and other polls are unchanged |
| CreatePoll.InitialOptions | PollApp/pollapp.client/src/components/CreatePoll.tsx:16 | The list starts as two empty entries |
| CreatePoll.ChangeOption | PollApp/pollapp.client/src/components/CreatePoll.tsx:19-23 | Same length, the entry at the index is the new value, every other entry unchanged |
| CreatePoll.AddOption | PollApp/pollapp.client/src/components/CreatePoll.tsx:25-27 | One longer, the old list as prefix, an empty last entry |
| CreatePoll.Without | PollApp/pollapp.client/src/components/CreatePoll.tsx:31 | The index filter drops exactly the entry at an in-range index and nothing otherwise |
| CreatePoll.RemoveOption | PollApp/pollapp.client/src/components/CreatePoll.tsx:29-33 | A no-op at two entries or fewer; otherwise drops exactly the entry at the index, keeping order (one shorter) |
| CreatePoll.SubmitPayload | PollApp/pollapp.client/src/components/CreatePoll.tsx:38-41 | The question, and one `{text, votes: 0}` per entry, in the same order and number |
| CreatePoll.CanSubmit | PollApp/pollapp.client/src/components/CreatePoll.tsx:69-89 | The browser's `required` check: the question and every option entry are non-empty |
| CreatePoll.Step | PollApp/pollapp.client/src/components/CreatePoll.tsx:19-33 | No single edit takes a list of two or more entries below two |
| CreatePoll.RunKeepsMinimum | PollApp/pollapp.client/src/components/CreatePoll.tsx:25-33 | No run of edits takes a list of two or more entries below two |
| CreatePoll.PageKeepsTwoOptions | PollApp/pollapp.client/src/components/CreatePoll.tsx:16 | From the initial list, every run of edits leaves at least two entries |
| PollDetail.FindIndex | PollApp/pollapp.client/src/components/PollDetail.tsx:91 | `find` returns the first option with the id; None exactly when no option has it |
| PollDetail.CountVote | PollApp/pollapp.client/src/components/PollDetail.tsx:90-95 | The first option with the selected id gets +1 and every other option is unchanged; no change when no option has the id |
| PollDetail.TotalVotesUpdate | PollApp/pollapp.client/src/components/PollDetail.tsx:93 | Changing one count changes the total by the difference |
| PollDetail.CountVoteTotal | PollApp/pollapp.client/src/components/PollDetail.tsx:90-95 | The local update adds exactly one vote in total when the option is on the page, none otherwise |
| PollDetail.Truthy | PollApp/pollapp.client/src/components/PollDetail.tsx:74 | A selection gets past `!selectedOption` only when it is present and not 0 |
| PollDetail.ChartOf | PollApp/pollapp.client/src/components/PollDetail.tsx:109-124 | No poll: no labels and no datasets; otherwise labels and data have the options' length and follow option order (text and votes) in one "Votes" series |
| PollDetail.ChartAfterVote | PollApp/pollapp.client/src/components/PollDetail.tsx:90-117 | After the local update, labels are unchanged and only the chosen option's bar grows, by one |
| PollDetail.PanelsFor | PollApp/pollapp.client/src/components/PollDetail.tsx:164-196 | Vote form iff not voted and results not asked for; results iff voted or asked for; exactly one of the two |
| PollDetail.PollDetailView.constructor | PollApp/pollapp.client/src/components/PollDetail.tsx:42-47 | Initial state: no poll, loading, nothing selected, not voted, no results, no error |
| PollDetail.PollDetailView.FetchPoll | PollApp/pollapp.client/src/components/PollDetail.tsx:50-68 | Ok: poll set and `hasVoted` iff the route id is in the voted list; not ok: "Poll not found"; failure: its message; loading ends in every case |
| PollDetail.PollDetailView.SelectOption | PollApp/pollapp.client/src/components/PollDetail.tsx:172 | Selection set to the option id, nothing else changes |
| PollDetail.PollDetailView.ViewResults | PollApp/pollapp.client/src/components/PollDetail.tsx:188 | Results show (and the form hides), nothing else changes |
| PollDetail.PollDetailView.HandleVote | PollApp/pollapp.client/src/components/PollDetail.tsx:73-107 | No selection, a selection of 0, or no poll: nothing changes; a failed request sets only the error; success gives +1 locally, appends the route id to the voted list, and sets voted and results, so the results panel shows |
| PollDetail.PollDetailView.Render | PollApp/pollapp.client/src/components/PollDetail.tsx:147-196 | Loading first, then a non-empty error, then "not found" without a poll, else the question with the gated panels and the chart |
| PollDetail.VoteThenRevisit | PollApp/pollapp.client/src/components/PollDetail.tsx:50-107 | After voting, the page shows the results panel with the vote counted locally; a later visit to the same poll shows the results panel at once, charted from the server's later answer |
| EndToEnd.BindRequest | PollApp/PollApp.Server/Controllers/PollController.cs:46 | The bound poll has the body's question and its options' texts and counts in order; the body fails to bind iff a count does not fit in `int` |
| EndToEnd.PayloadBinds | PollApp/pollapp.client/src/components/CreatePoll.tsx:38-41 | The editor's payload always binds, to one option per entry with its text and zero votes |
| EndToEnd.BoundPayloadValid | PollApp/PollApp.Server/Models/Poll.cs:11-24 | A question and entries that all have text give a request the server validates |
| EndToEnd.ServerValidImpliesBrowserCheck | PollApp/PollApp.Server/Models/Poll.cs:11-24 | Every request the server validates passes the browser's `required` check |
| EndToEnd.BlankQuestionPassesBrowserOnly | PollApp/pollapp.client/src/components/CreatePoll.tsx:69-76 | A question of blanks passes the browser's check but fails server validation |
| EndToEnd.VoteTwice | PollApp/PollApp.Server/Controllers/PollController.cs:66-72 | On any valid store, a first vote by a new address is accepted and a second on any option of the same poll is refused |
| EndToEnd.PostFromEditor | PollApp/PollApp.Server/Controllers/PollController.cs:46-53 | Posting the editor's payload to an empty store creates the poll with its entries as zero-vote options |
| EndToEnd.CreateThenVoteTwice | PollApp/PollApp.Server/Controllers/PollController.cs:59-81 | Create from the editor, vote, vote again from the same address: created, accepted, refused |
| EndToEnd.ClientVoteRequest | PollApp/pollapp.client/src/components/PollDetail.tsx:77-83 | The poll page sends the selected id in the JSON body and nothing in the query string |
| EndToEnd.BindOptionIdAsWritten | PollApp/PollApp.Server/Controllers/PollController.cs:57 | `int optionId` is read from the query string; a missing value is 0 and the body is not read |
| EndToEnd.BindOptionIdFromBody | PollApp/pollapp.client/src/components/PollDetail.tsx:82 | The option id the page puts in the JSON body |
| EndToEnd.ClientVoteIsNotFoundAsWritten | PollApp/PollApp.Server/Controllers/PollController.cs:56-63 | As declared, the page's vote binds option id 0, which no stored option has, so the guard fails (404) |
| EndToEnd.ClientVoteReachesOption | PollApp/pollapp.client/src/components/PollDetail.tsx:82 | With the id read from the body, the page's vote on any stored option passes the guard for that option's poll |
| EndToEnd.ClientVoteAsWritten | PollApp/PollApp.Server/Controllers/PollController.cs:56-63 | On any valid store, the page's vote as declared is answered 404 and changes nothing: the three tables, the three key counters and the ghost sums and wrap counts are all as before |
| EndToEnd.ClientVoteFromBody | PollApp/PollApp.Server/Controllers/PollController.cs:57-84 | With the id read from the body, a first vote from an address on a stored option is accepted |

## Left out

- EF Core (`DbContext`, `DbSet`, `Include` as SQL), `async`/`await` and
  `SaveChangesAsync`: the store is in-memory tables, and each request is one
  atomic step.
- The race between `AnyAsync` and `SaveChangesAsync`, where two concurrent
  votes from one address could both pass: the model is sequential and assumes
  requests do not interleave.
- HTTP routing, status-code plumbing, JSON (de)serialisation details,
  `fetch`, `navigate`, `alert`, the clipboard and `window.location`. Server
  answers are parameters (`Response`).
- Request keys (`ID`, `PollID`) carried in a `PostPoll` body: the database
  assigns keys from counters. The body's keys are dropped and not modelled.
- Implicit `[Required]` on non-nullable reference properties, which depends on
  a project setting that is not part of this model. Only the explicit
  `[Required]` attributes are modelled.
- Validation messages of the automatic 400 answer.
- Key width: `Poll.ID`, `PollOption.ID`, `PollOption.PollID`, `PollVote.ID`,
  `PollVote.PollID` and the key counters `nextPollId`, `nextOptionId` and
  `nextVoteId` are unbounded integers. In the source they are C# `int`
  identity columns, and an insert that needs a key past `int.MaxValue` makes
  `SaveChangesAsync` (PollApp/PollApp.Server/Controllers/PollController.cs:50
  and :81) throw and store nothing. The model does not have that failure:
  `PostPoll` and `Vote` go on succeeding with larger keys.
- PollApi.PollController.PostPoll: counts carried by the request are stored
  as given, as the source does. The tally invariant records them per poll as
  the posted sum, so it does not claim that counters equal vote records.
- The JSON parsing of the `localStorage` entry and its failure on malformed
  text: the voted list is a field of `PollDetailView`. Its persistence across
  page visits is modelled by passing the list to the next view.
- PollDetail.PollDetailView.HandleVote: `{ ...poll }` is a shallow copy, so
  `option.votes++` also changes the option inside the previous poll object.
  The model treats polls as values and does not capture this aliasing.
- PollDetail.Truthy: `NaN` as a selection is not modelled. Selections come
  from option ids, which are integers.
- JavaScript number precision above 2^53: client counts are unbounded
  integers.
- Chart styling and options (`chartOptions`, colours, chart.js registration),
  and all React rendering other than the gating in `Render`.
- The date text of `createdAt` on the client and its formatting.
- PollApp/pollapp.client/src/components/PollList.tsx,
  PollApp/pollapp.client/src/components/Layout.tsx and
  PollApp/pollapp.client/src/App.tsx: fetch-and-render and route wiring with
  no logic to state.

## Findings

| source | as written | input that shows it | evidently intended | confidence | as-written member | corrected member |
|---|---|---|---|---|---|---|
| PollApp/PollApp.Server/Controllers/PollController.cs:57 | `Vote(int id, int optionId)` on an API controller binds `optionId` from the query string, where it is missing and binds as 0. The poll page sends it only in the JSON body (PollApp/pollapp.client/src/components/PollDetail.tsx:82) | any vote from the poll page, e.g. `POST /api/poll/1/Vote` with body `{"optionId": 1}`: option 0 is looked up and the answer is 404 | the option id the page sends is the one looked up, so the chosen option is counted | medium, not executed (follows the framework's binding-source rules) | EndToEnd.ClientVoteIsNotFoundAsWritten | EndToEnd.ClientVoteReachesOption |
