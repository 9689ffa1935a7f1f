/** How the client's "create poll" request meets the server: the request body
    is bound to a server `Poll`, validated, stored, and voted on. */
module EndToEnd {
  import opened Wrappers
  import opened Models
  import opened Tables
  import opened PollApi
  import CreatePoll

  /** Binding the JSON body to a `Poll`: fields the body leaves out keep their
      initial values (key 0, the construction time, owner 0); a count that
      does not fit in an `int` makes the body unreadable. */
  function BindRequest(data: CreatePoll.PollData, now: Timestamp): (r: Option<Poll>)
    ensures r.Some? <==> forall i :: 0 <= i < |data.options| ==> MinInt32 <= data.options[i].votes <= MaxInt32
    ensures r.Some? ==>
              && r.value.question == data.question
              && |r.value.options| == |data.options|
              && forall i :: 0 <= i < |data.options| ==>
                   r.value.options[i].text == data.options[i].text && r.value.options[i].votes as int == data.options[i].votes
  {
    if forall i :: 0 <= i < |data.options| ==> MinInt32 <= data.options[i].votes <= MaxInt32 then
      var options := data.options;
      Some(NewPoll(now).(question := data.question,
                         options := seq(|options|, i requires 0 <= i < |options| =>
                                          NewPollOption().(text := options[i].text, votes := options[i].votes))))
    else None
  }

  /** What the editor sends always binds: one option per entry, in order,
      with the entry's text and no votes. */
  lemma {:induction false} PayloadBinds(question: string, entries: seq<string>, now: Timestamp)
    ensures var r := BindRequest(CreatePoll.SubmitPayload(question, entries), now);
            && r.Some?
            && r.value.question == question
            && |r.value.options| == |entries|
            && forall i :: 0 <= i < |entries| ==> r.value.options[i].text == entries[i] && r.value.options[i].votes == 0
  {
  }

  /** A request the server accepts has passed the browser's check too: every
      field with text in it is not empty. */
  lemma {:induction false} ServerValidImpliesBrowserCheck(question: string, entries: seq<string>, now: Timestamp)
    requires IsValidPoll(BindRequest(CreatePoll.SubmitPayload(question, entries), now).value)
    ensures CreatePoll.CanSubmit(question, entries)
  {
  }

  /** The converse fails: a question of blanks passes the browser's check and
      is then refused by the server with a validation problem. */
  lemma {:induction false} BlankQuestionPassesBrowserOnly(now: Timestamp)
    ensures CreatePoll.CanSubmit(" ", ["a", "b"])
    ensures !IsValidPoll(BindRequest(CreatePoll.SubmitPayload(" ", ["a", "b"]), now).value)
  {
    var p := BindRequest(CreatePoll.SubmitPayload(" ", ["a", "b"]), now).value;
    assert p.question == " ";
  }

  lemma {:induction false} BoundPayloadValid(question: string, entries: seq<string>, now: Timestamp)
    requires HasText(question) && forall i :: 0 <= i < |entries| ==> HasText(entries[i])
    ensures BindRequest(CreatePoll.SubmitPayload(question, entries), now).Some?
    ensures IsValidPoll(BindRequest(CreatePoll.SubmitPayload(question, entries), now).value)
  {
    PayloadBinds(question, entries, now);
  }

  /** On any store, a first vote from an address on an option of a poll it has
      not voted in is counted, and a second one from the same address on any
      option of that poll, the same or another, is refused. */
  method VoteTwice(store: PollController, id: int, pick: nat, other: nat, ip: Option<string>, now: Timestamp)
    returns (first: VoteResult, second: VoteResult)
    requires store.Valid()
    requires pick < |store.pollOptions| && store.pollOptions[pick].pollId == id
    requires other < |store.pollOptions| && store.pollOptions[other].pollId == id
    requires !HasVoted(store.pollVotes, id, ip)
    modifies store
    ensures first == NoContent
    ensures second == BadRequest(AlreadyVotedMessage)
  {
    var a, b := store.pollOptions[pick].id, store.pollOptions[other].id;
    BelongsAt(store.pollOptions, pick);
    first := store.Vote(id, a, ip, now);
    BelongsAt(store.pollOptions, other);
    second := store.Vote(id, b, ip, now);
  }

  /** A fresh store after the editor's payload for a valid question and
      entries has been posted: it holds that one poll, its options with no
      votes, and no vote records. */
  method PostFromEditor(question: string, entries: seq<string>, now: Timestamp)
    returns (store: PollController, created: PostResult)
    requires HasText(question) && forall i :: 0 <= i < |entries| ==> HasText(entries[i])
    ensures fresh(store) && store.Valid()
    ensures created.Created? && |created.poll.options| == |entries|
    ensures forall i :: 0 <= i < |entries| ==>
              created.poll.options[i].text == entries[i] && created.poll.options[i].votes == 0
              && created.poll.options[i].pollId == created.poll.id
    ensures store.pollOptions == created.poll.options && store.pollVotes == []
  {
    BoundPayloadValid(question, entries, now);
    PayloadBinds(question, entries, now);
    var request := BindRequest(CreatePoll.SubmitPayload(question, entries), now).value;
    store := new PollController();
    created := store.PostPoll(request, now);
  }

  /** A poll made in the editor is stored with no votes; the first vote from
      an address on one of its options is counted and a second vote from the
      same address, on any option of that poll, is refused. */
  method CreateThenVoteTwice(question: string, entries: seq<string>, pick: nat, other: nat,
                             ip: Option<string>, now: Timestamp)
    returns (created: PostResult, first: VoteResult, second: VoteResult)
    requires HasText(question) && forall i :: 0 <= i < |entries| ==> HasText(entries[i])
    requires pick < |entries| && other < |entries|
    ensures created.Created? && |created.poll.options| == |entries|
    ensures forall i :: 0 <= i < |entries| ==> created.poll.options[i].votes == 0
    ensures first == NoContent
    ensures second == BadRequest(AlreadyVotedMessage)
  {
    var store;
    store, created := PostFromEditor(question, entries, now);
    first, second := VoteTwice(store, created.poll.id, pick, other, ip, now);
  }

  /** A vote request as it reaches the server: the poll key in the route,
      the `optionId` of the query string if any, and the `optionId` of the
      JSON body if any. */
  datatype VoteRequest = VoteRequest(pollId: int, queryOptionId: Option<int>, bodyOptionId: Option<int>)

  /** The request the poll page sends for the selected option: the id goes
      in the JSON body and the query string is empty. */
  function ClientVoteRequest(pollId: int, selected: int): (req: VoteRequest)
    ensures req.pollId == pollId && req.queryOptionId.None? && req.bodyOptionId == Some(selected)
  {
    VoteRequest(pollId, None, Some(selected))
  }

  /** The binding of `int optionId` as the action is declared: on an API
      controller a simple parameter that is not in the route is read from
      the query string, and a missing value binds as 0. The body is not read. */
  function BindOptionIdAsWritten(req: VoteRequest): int
  {
    match req.queryOptionId
    case Some(v) => v
    case None => 0
  }

  /** The binding the client relies on: the id it put in the body. */
  function BindOptionIdFromBody(req: VoteRequest): int
  {
    match req.bodyOptionId
    case Some(v) => v
    case None => 0
  }

  /** As declared, no vote from the poll page names an option of the store:
      the bound id is 0 and keys start at 1, so every such vote is 404. */
  lemma {:induction false} ClientVoteIsNotFoundAsWritten(options: seq<PollOption>, nextOptionId: int, pollId: int, selected: int)
    requires PollApi.OptionKeysValid(options, nextOptionId)
    ensures BindOptionIdAsWritten(ClientVoteRequest(pollId, selected)) == 0
    ensures !OptionBelongsTo(options, BindOptionIdAsWritten(ClientVoteRequest(pollId, selected)), pollId)
  {
  }

  /** With the id read from the body, a vote from the poll page on any option
      of the store passes the guard for the option's own poll. */
  lemma {:induction false} ClientVoteReachesOption(options: seq<PollOption>, k: int)
    requires UniqueOptionIds(options) && 0 <= k < |options|
    ensures var req := ClientVoteRequest(options[k].pollId, options[k].id);
            && BindOptionIdFromBody(req) == options[k].id
            && OptionBelongsTo(options, BindOptionIdFromBody(req), req.pollId)
  {
    BelongsAt(options, k);
  }

  /** The poll page's vote on a valid store, as the action is declared: 404,
      and nothing changes. */
  method ClientVoteAsWritten(store: PollController, pollId: int, selected: int, ip: Option<string>, now: Timestamp)
    returns (r: VoteResult)
    requires store.Valid()
    modifies store
    ensures r == NotFound
    ensures store.polls == old(store.polls) && store.pollOptions == old(store.pollOptions)
    ensures store.pollVotes == old(store.pollVotes)
    ensures store.nextPollId == old(store.nextPollId) && store.nextOptionId == old(store.nextOptionId)
    ensures store.nextVoteId == old(store.nextVoteId)
    ensures store.postedTally == old(store.postedTally) && store.wrapCount == old(store.wrapCount)
  {
    var req := ClientVoteRequest(pollId, selected);
    ClientVoteIsNotFoundAsWritten(store.pollOptions, store.nextOptionId, pollId, selected);
    r := store.Vote(req.pollId, BindOptionIdAsWritten(req), ip, now);
  }

  /** The poll page's vote with the id read from the body: a first vote from
      an address on an option of the poll is counted. */
  method ClientVoteFromBody(store: PollController, k: nat, ip: Option<string>, now: Timestamp)
    returns (r: VoteResult)
    requires store.Valid() && k < |store.pollOptions|
    requires !HasVoted(store.pollVotes, store.pollOptions[k].pollId, ip)
    modifies store
    ensures r == NoContent
    ensures HasVoted(store.pollVotes, old(store.pollOptions[k].pollId), ip)
  {
    var req := ClientVoteRequest(store.pollOptions[k].pollId, store.pollOptions[k].id);
    ClientVoteReachesOption(store.pollOptions, k);
    r := store.Vote(req.pollId, BindOptionIdFromBody(req), ip, now);
  }
}
