/** The poll controller over its store. Each request is one atomic step on
    three tables: polls, options and vote records. */
module PollApi {
  import opened Wrappers
  import opened Models
  import opened Tables

  /** A row of the polls table; its options live in the options table. */
  datatype PollRow = PollRow(id: int, question: string, createdAt: Timestamp)

  /** The outcomes of `Vote`: 204, 404, or 400 with a message. */
  datatype VoteResult = NoContent | NotFound | BadRequest(message: string)

  /** The outcomes of `PostPoll`: 201 with the stored poll, or the automatic
      400 that model validation answers before the action runs. */
  datatype PostResult = Created(poll: Poll) | ValidationProblem

  const AlreadyVotedMessage: string := "You have already voted in this poll."

  function PollIds(polls: seq<PollRow>): set<int>
  {
    set i | 0 <= i < |polls| :: polls[i].id
  }

  /** `FirstOrDefault(p => p.ID == id)` over the polls table. */
  function FindPoll(polls: seq<PollRow>, id: int): (r: Option<nat>)
    ensures r.Some? ==> r.value < |polls| && polls[r.value].id == id
    ensures r.Some? ==> forall j :: 0 <= j < r.value ==> polls[j].id != id
    ensures r.None? <==> id !in PollIds(polls)
  {
    if polls == [] then None
    else if polls[0].id == id then Some(0)
    else
      assert PollIds(polls) == PollIds(polls[1..]) + {polls[0].id} by {
        forall x | x in PollIds(polls) ensures x in PollIds(polls[1..]) + {polls[0].id} {
          var i :| 0 <= i < |polls| && polls[i].id == x;
          if i > 0 { assert polls[1..][i - 1].id == x; }
        }
      }
      match FindPoll(polls[1..], id)
      case None => None
      case Some(k) => Some(k + 1)
  }

  lemma {:induction false} FindPollAppend(polls: seq<PollRow>, row: PollRow, id: int)
    ensures FindPoll(polls + [row], id) ==
            if id in PollIds(polls) then FindPoll(polls, id)
            else if row.id == id then Some(|polls|) else None
  {
    var w := polls + [row];
    PollIdsAppend(polls, row);
    if id in PollIds(polls) {
      var k := FindPoll(polls, id).value;
      assert w[k] == polls[k];
    } else if row.id == id {
      assert w[|polls|] == row;
    }
  }

  /** What each poll was posted with, as a sum of counters (0 for unknown polls). */
  ghost function Posted(posted: map<int, int>, pollId: int): int
  {
    if pollId in posted then posted[pollId] else 0
  }

  /** How many times the counters of a poll have wrapped from `int.MaxValue`
      round to `int.MinValue` (0 for unknown polls). */
  ghost function Wraps(wraps: map<int, nat>, pollId: int): nat
  {
    if pollId in wraps then wraps[pollId] else 0
  }

  /** The counters of a poll, less what it was posted with, add up to its
      number of vote records, less 2^32 for every wrap-around of a C# int. */
  ghost predicate TallyMatches(options: seq<PollOption>, votes: seq<PollVote>, posted: map<int, int>,
                               wraps: map<int, nat>, pollId: int)
  {
    Tally(options, pollId) == Posted(posted, pollId) + VoteCount(votes, pollId) - Modulus * Wraps(wraps, pollId)
  }

  ghost predicate TalliesMatch(options: seq<PollOption>, votes: seq<PollVote>, posted: map<int, int>,
                               wraps: map<int, nat>)
  {
    forall pollId :: TallyMatches(options, votes, posted, wraps, pollId)
  }

  /** The wrap counts after option `o` counts one more vote. */
  ghost function CountWrap(wraps: map<int, nat>, o: PollOption): map<int, nat>
  {
    if o.votes == MaxInt32 then wraps[o.pollId := Wraps(wraps, o.pollId) + 1] else wraps
  }

  /** Poll keys are handed out from `nextPollId` and are unique. */
  ghost predicate PollKeysValid(polls: seq<PollRow>, nextPollId: int)
  {
    && 1 <= nextPollId
    && (forall i :: 0 <= i < |polls| ==> 1 <= polls[i].id < nextPollId)
    && (forall i, j :: 0 <= i < j < |polls| ==> polls[i].id != polls[j].id)
  }

  /** Option keys are handed out from `nextOptionId` and are unique. */
  ghost predicate OptionKeysValid(options: seq<PollOption>, nextOptionId: int)
  {
    && 1 <= nextOptionId
    && (forall i :: 0 <= i < |options| ==> 1 <= options[i].id < nextOptionId)
    && UniqueOptionIds(options)
  }

  /** Every option and every vote record names a poll of the table. */
  ghost predicate OwnersExist(polls: seq<PollRow>, options: seq<PollOption>, votes: seq<PollVote>)
  {
    && (forall i :: 0 <= i < |options| ==> options[i].pollId in PollIds(polls))
    && (forall i :: 0 <= i < |votes| ==> votes[i].pollId in PollIds(polls))
  }

  /** The invariant of the three tables and the key counters. */
  ghost predicate TablesValid(polls: seq<PollRow>, options: seq<PollOption>, votes: seq<PollVote>,
                              nextPollId: int, nextOptionId: int, posted: map<int, int>,
                              wraps: map<int, nat>)
  {
    && PollKeysValid(polls, nextPollId)
    && OptionKeysValid(options, nextOptionId)
    && OwnersExist(polls, options, votes)
    && OneVotePerVoter(votes)
    && TalliesMatch(options, votes, posted, wraps)
  }

  /** The rows after a vote: row `k` counts one more vote. */
  function CountVoteAt(options: seq<PollOption>, k: nat): (r: seq<PollOption>)
    requires k < |options|
    ensures |r| == |options|
    ensures forall i :: 0 <= i < |options| ==> r[i].id == options[i].id && r[i].pollId == options[i].pollId
    ensures forall i :: 0 <= i < |options| && i != k ==> r[i] == options[i]
    ensures r[k].text == options[k].text && r[k].votes == Inc32(options[k].votes)
  {
    options[k := options[k].(votes := Inc32(options[k].votes))]
  }

  lemma {:induction false} CountVoteKeepsTallies(options: seq<PollOption>, votes: seq<PollVote>, posted: map<int, int>,
                              wraps: map<int, nat>, k: nat, record: PollVote)
    requires TalliesMatch(options, votes, posted, wraps)
    requires k < |options| && record.pollId == options[k].pollId
    ensures TalliesMatch(CountVoteAt(options, k), votes + [record], posted, CountWrap(wraps, options[k]))
  {
    var updated := options[k].(votes := Inc32(options[k].votes));
    var wraps' := CountWrap(wraps, options[k]);
    forall q ensures TallyMatches(CountVoteAt(options, k), votes + [record], posted, wraps', q) {
      TallyUpdate(options, k, updated, q);
      VoteCountAppend(votes, record, q);
      assert TallyMatches(options, votes, posted, wraps, q);
    }
  }

  /** A successful vote: one counter is incremented and one record appended. */
  lemma {:induction false} VoteKeepsValid(polls: seq<PollRow>, options: seq<PollOption>, votes: seq<PollVote>,
                       nextPollId: int, nextOptionId: int, posted: map<int, int>, wraps: map<int, nat>,
                       k: nat, record: PollVote)
    requires TablesValid(polls, options, votes, nextPollId, nextOptionId, posted, wraps)
    requires k < |options| && record.pollId == options[k].pollId
    requires !HasVoted(votes, record.pollId, record.userIp)
    ensures TablesValid(polls, CountVoteAt(options, k), votes + [record], nextPollId, nextOptionId, posted,
                        CountWrap(wraps, options[k]))
  {
    var options', votes' := CountVoteAt(options, k), votes + [record];
    AppendNewVoterKeepsOneVote(votes, record);
    CountVoteKeepsTallies(options, votes, posted, wraps, k, record);
    forall i | 0 <= i < |votes'| ensures votes'[i].pollId in PollIds(polls) {
      if i < |votes| { assert votes'[i] == votes[i]; }
    }
  }

  /** What a successful vote does as seen from outside: the other polls' rows
      are untouched, and the voting poll gains exactly one record, from this
      voter. */
  lemma {:induction false} VoteTouchesOnlyItsPoll(options: seq<PollOption>, votes: seq<PollVote>, k: nat,
                                                  record: PollVote)
    requires k < |options| && record.pollId == options[k].pollId
    ensures forall q :: q != record.pollId ==> OptionsOf(CountVoteAt(options, k), q) == OptionsOf(options, q)
    ensures HasVoted(votes + [record], record.pollId, record.userIp)
    ensures VoteCount(votes + [record], record.pollId) == VoteCount(votes, record.pollId) + 1
  {
    forall q | q != record.pollId ensures OptionsOf(CountVoteAt(options, k), q) == OptionsOf(options, q) {
      OptionsOfUpdateOther(options, k, CountVoteAt(options, k)[k], q);
    }
    assert (votes + [record])[|votes|] == record;
    VoteCountAppend(votes, record, record.pollId);
  }

  lemma {:induction false} PollIdsAppend(polls: seq<PollRow>, row: PollRow)
    ensures PollIds(polls + [row]) == PollIds(polls) + {row.id}
  {
    var polls' := polls + [row];
    assert polls'[|polls|] == row;
    forall x | x in PollIds(polls') ensures x in PollIds(polls) + {row.id} {
      var i :| 0 <= i < |polls'| && polls'[i].id == x;
      if i < |polls| { assert polls'[i] == polls[i]; }
    }
    forall x | x in PollIds(polls) ensures x in PollIds(polls') {
      var i :| 0 <= i < |polls| && polls[i].id == x;
      assert polls'[i] == polls[i];
    }
  }

  /** Fresh option rows keyed from `nextOptionId` on, all owned by poll `pollId`. */
  ghost predicate FreshRows(rows: seq<PollOption>, nextOptionId: int, pollId: int)
  {
    forall k :: 0 <= k < |rows| ==> rows[k].id == nextOptionId + k && rows[k].pollId == pollId
  }

  /** The rows `PostPoll` adds to the options table: the request's options
      in order, keyed from `firstId` on and owned by `pollId`, with the text
      and the count each one carried. */
  function PostedRows(requested: seq<PollOption>, firstId: int, pollId: int): (rows: seq<PollOption>)
    ensures |rows| == |requested| && FreshRows(rows, firstId, pollId)
    ensures forall k :: 0 <= k < |rows| ==> rows[k].text == requested[k].text && rows[k].votes == requested[k].votes
  {
    seq(|requested|, k requires 0 <= k < |requested| =>
      PollOption(firstId + k, requested[k].text, requested[k].votes, pollId))
  }

  lemma {:induction false} AppendFreshOptionKeys(options: seq<PollOption>, rows: seq<PollOption>, nextOptionId: int, pollId: int)
    requires OptionKeysValid(options, nextOptionId) && FreshRows(rows, nextOptionId, pollId)
    ensures OptionKeysValid(options + rows, nextOptionId + |rows|)
  {
    var options' := options + rows;
    forall i | 0 <= i < |options'| ensures 1 <= options'[i].id < nextOptionId + |rows| {
      if i < |options| { assert options'[i] == options[i]; } else { assert options'[i] == rows[i - |options|]; }
    }
  }

  lemma {:induction false} AppendOwnedRows(polls: seq<PollRow>, options: seq<PollOption>, votes: seq<PollVote>,
                        row: PollRow, rows: seq<PollOption>, nextOptionId: int)
    requires OwnersExist(polls, options, votes) && FreshRows(rows, nextOptionId, row.id)
    ensures OwnersExist(polls + [row], options + rows, votes)
  {
    PollIdsAppend(polls, row);
    var options' := options + rows;
    forall i | 0 <= i < |options'| ensures options'[i].pollId in PollIds(polls + [row]) {
      if i < |options| { assert options'[i] == options[i]; } else { assert options'[i] == rows[i - |options|]; }
    }
  }

  /** No row of any table names a poll key that has not been handed out. */
  lemma {:induction false} NothingOwnedByNextPoll(polls: seq<PollRow>, options: seq<PollOption>, votes: seq<PollVote>, nextPollId: int)
    requires PollKeysValid(polls, nextPollId) && OwnersExist(polls, options, votes)
    ensures nextPollId !in PollIds(polls)
    ensures forall i :: 0 <= i < |options| ==> options[i].pollId != nextPollId
    ensures forall i :: 0 <= i < |votes| ==> votes[i].pollId != nextPollId
  {
    forall i | 0 <= i < |options| ensures options[i].pollId != nextPollId {
      assert options[i].pollId in PollIds(polls);
      var j :| 0 <= j < |polls| && polls[j].id == options[i].pollId;
    }
    forall i | 0 <= i < |votes| ensures votes[i].pollId != nextPollId {
      assert votes[i].pollId in PollIds(polls);
      var j :| 0 <= j < |polls| && polls[j].id == votes[i].pollId;
    }
  }

  lemma {:induction false} PostKeepsTallies(options: seq<PollOption>, votes: seq<PollVote>, posted: map<int, int>,
                         wraps: map<int, nat>, rows: seq<PollOption>, pollId: int, nextOptionId: int)
    requires TalliesMatch(options, votes, posted, wraps) && FreshRows(rows, nextOptionId, pollId)
    requires forall i :: 0 <= i < |options| ==> options[i].pollId != pollId
    requires forall i :: 0 <= i < |votes| ==> votes[i].pollId != pollId
    ensures TalliesMatch(options + rows, votes, posted[pollId := Tally(rows, pollId)], wraps[pollId := 0])
  {
    var posted', wraps' := posted[pollId := Tally(rows, pollId)], wraps[pollId := 0];
    forall q ensures TallyMatches(options + rows, votes, posted', wraps', q) {
      TallyAppend(options, rows, q);
      if q == pollId {
        TallyNone(options, q);
        VoteCountNone(votes, q);
      } else {
        TallyNone(rows, q);
        assert TallyMatches(options, votes, posted, wraps, q);
      }
    }
  }

  /** Posting a poll: one row and its options, all with fresh keys. */
  lemma {:induction false} PostKeepsValid(polls: seq<PollRow>, options: seq<PollOption>, votes: seq<PollVote>,
                       nextPollId: int, nextOptionId: int, posted: map<int, int>, wraps: map<int, nat>,
                       row: PollRow, rows: seq<PollOption>)
    requires TablesValid(polls, options, votes, nextPollId, nextOptionId, posted, wraps)
    requires row.id == nextPollId && FreshRows(rows, nextOptionId, nextPollId)
    ensures nextPollId !in PollIds(polls)
    ensures TablesValid(polls + [row], options + rows, votes, nextPollId + 1, nextOptionId + |rows|,
                        posted[nextPollId := Tally(rows, nextPollId)], wraps[nextPollId := 0])
  {
    NothingOwnedByNextPoll(polls, options, votes, nextPollId);
    var polls' := polls + [row];
    assert polls'[|polls|] == row;
    forall i, j | 0 <= i < j < |polls'| ensures polls'[i].id != polls'[j].id {
      assert polls'[i] == polls[i];
      if j < |polls| { assert polls'[j] == polls[j]; }
    }
    forall i | 0 <= i < |polls'| ensures 1 <= polls'[i].id < nextPollId + 1 {
      if i < |polls| { assert polls'[i] == polls[i]; }
    }
    AppendFreshOptionKeys(options, rows, nextOptionId, nextPollId);
    AppendOwnedRows(polls, options, votes, row, rows, nextOptionId);
    PostKeepsTallies(options, votes, posted, wraps, rows, nextPollId, nextOptionId);
  }

  /** `Polls.Include(p => p.Options).FirstOrDefault(p => p.ID == id)`. */
  function PollWithOptions(polls: seq<PollRow>, options: seq<PollOption>, id: int): (r: Option<Poll>)
    ensures r.None? <==> id !in PollIds(polls)
    ensures r.Some? ==> r.value.id == id && PollRow(id, r.value.question, r.value.createdAt) in polls
    ensures r.Some? ==> forall i :: 0 <= i < |r.value.options| ==> r.value.options[i].pollId == id
  {
    match FindPoll(polls, id)
    case None => None
    case Some(k) =>
      OptionsOfMembers(options, id);
      Some(Poll(id, polls[k].question, polls[k].createdAt, OptionsOf(options, id)))
  }

  /** A poll that is found carries every row of the options table it owns,
      and no other. */
  lemma {:induction false} PollWithOptionsComplete(polls: seq<PollRow>, options: seq<PollOption>, id: int)
    requires id in PollIds(polls)
    ensures PollWithOptions(polls, options, id).Some?
    ensures forall o :: o in PollWithOptions(polls, options, id).value.options <==> o in options && o.pollId == id
  {
    OptionsOfMembers(options, id);
  }

  /** After a post, the new poll is found with exactly its own options, and
      every other lookup answers as before. */
  lemma {:induction false} PostedPollIsFound(polls: seq<PollRow>, options: seq<PollOption>, row: PollRow, rows: seq<PollOption>, newOptions: seq<PollOption>)
    requires row.id !in PollIds(polls)
    requires OptionsOf(newOptions, row.id) == rows
    requires forall q :: q != row.id ==> OptionsOf(newOptions, q) == OptionsOf(options, q)
    ensures PollWithOptions(polls + [row], newOptions, row.id) == Some(Poll(row.id, row.question, row.createdAt, rows))
    ensures forall q :: q != row.id ==> PollWithOptions(polls + [row], newOptions, q) == PollWithOptions(polls, options, q)
  {
    FindPollAppend(polls, row, row.id);
    assert (polls + [row])[|polls|] == row;
    forall q | q != row.id
      ensures PollWithOptions(polls + [row], newOptions, q) == PollWithOptions(polls, options, q)
    {
      FindPollAppend(polls, row, q);
      match FindPoll(polls, q)
      case None =>
      case Some(k) => assert (polls + [row])[k] == polls[k];
    }
  }

  /** The controller together with the tables of its database context. */
  class PollController {
    var polls: seq<PollRow>
    var pollOptions: seq<PollOption>
    var pollVotes: seq<PollVote>
    /** The keys the database will hand out next (identity columns). */
    var nextPollId: int
    var nextOptionId: int
    var nextVoteId: int
    /** For each poll, the sum of the counters it was posted with. */
    ghost var postedTally: map<int, int>
    ghost var wrapCount: map<int, nat>

    ghost predicate Valid()
      reads this
    {
      TablesValid(polls, pollOptions, pollVotes, nextPollId, nextOptionId, postedTally, wrapCount)
    }

    /** An empty database. */
    constructor ()
      ensures Valid()
      ensures polls == [] && pollOptions == [] && pollVotes == []
    {
      polls, pollOptions, pollVotes := [], [], [];
      nextPollId, nextOptionId, nextVoteId := 1, 1, 1;
      postedTally, wrapCount := map[], map[];
    }

    /** GET api/Poll: every poll, with its options, in table order. */
    function GetPolls(): (r: seq<Poll>)
      reads this
      ensures |r| == |polls|
      ensures forall i :: 0 <= i < |polls| ==>
        r[i].id == polls[i].id && r[i].question == polls[i].question && r[i].createdAt == polls[i].createdAt
      ensures forall i :: 0 <= i < |polls| ==>
        forall o :: o in r[i].options <==> o in pollOptions && o.pollId == polls[i].id
    {
      OptionsOfMembersAll(pollOptions);
      seq(|polls|, i requires 0 <= i < |polls| reads this =>
        Poll(polls[i].id, polls[i].question, polls[i].createdAt, OptionsOf(pollOptions, polls[i].id)))
    }

    /** GET api/Poll/{id}: the poll with that key and its options, or None
        for 404 when there is none. */
    function GetPoll(id: int): (r: Option<Poll>)
      reads this
      ensures r.None? <==> id !in PollIds(polls)
      ensures r.Some? ==> r.value.id == id
      ensures r.Some? ==>
        exists i :: (0 <= i < |polls| && polls[i].id == id &&
                     r.value.question == polls[i].question && r.value.createdAt == polls[i].createdAt)
      ensures r.Some? ==> forall o :: o in r.value.options <==> o in pollOptions && o.pollId == id
    {
      OptionsOfMembers(pollOptions, id);
      PollWithOptions(polls, pollOptions, id)
    }

    /** A poll is found by GetPoll exactly when it is in the list GetPolls
        returns. */
    lemma {:induction false} GetPollAgreesWithGetPolls(id: int, p: Poll)
      requires Valid()
      ensures GetPoll(id) == Some(p) <==> p in GetPolls() && p.id == id
    {
      var all := GetPolls();
      if p in all && p.id == id {
        var i :| 0 <= i < |all| && all[i] == p;
        var k := FindPoll(polls, id).value;
        assert polls[i].id == id;
        assert polls[k].id == polls[i].id;
      }
    }

    /** A poll that is not in the table owns no option, so a vote on it is
        answered 404. */
    lemma {:induction false} NoPollNoOption(id: int, optionId: int)
      requires Valid() && id !in PollIds(polls)
      ensures !OptionBelongsTo(pollOptions, optionId, id)
    {
      match FindOption(pollOptions, optionId)
      case None =>
      case Some(k) =>
        assert pollOptions[k].pollId in PollIds(polls);
    }

    /** POST api/Poll/{id}/Vote by the client at `userIp`, at time `now`. */
    method Vote(id: int, optionId: int, userIp: Option<string>, now: Timestamp) returns (r: VoteResult)
      requires Valid()
      modifies this
      ensures Valid()
      ensures polls == old(polls) && nextPollId == old(nextPollId) && nextOptionId == old(nextOptionId)
      ensures postedTally == old(postedTally)
      ensures r.NotFound? || r.BadRequest? ==> wrapCount == old(wrapCount)
      ensures r == NotFound <==> !OptionBelongsTo(old(pollOptions), optionId, id)
      ensures r.BadRequest? <==>
              OptionBelongsTo(old(pollOptions), optionId, id) && HasVoted(old(pollVotes), id, userIp)
      ensures r.BadRequest? ==> r.message == AlreadyVotedMessage
      ensures r.NotFound? || r.BadRequest? ==>
              pollOptions == old(pollOptions) && pollVotes == old(pollVotes) && nextVoteId == old(nextVoteId)
      ensures r == NoContent ==>
              var k := FindOption(old(pollOptions), optionId).value;
              && pollOptions == old(pollOptions)[k := old(pollOptions)[k].(votes := Inc32(old(pollOptions)[k].votes))]
              && pollVotes == old(pollVotes) + [PollVote(old(nextVoteId), id, userIp, now)]
              && nextVoteId == old(nextVoteId) + 1
              && wrapCount == CountWrap(old(wrapCount), old(pollOptions)[k])
      ensures r == NoContent ==> HasVoted(pollVotes, id, userIp)
      ensures r == NoContent ==> VoteCount(pollVotes, id) == old(VoteCount(pollVotes, id)) + 1
      ensures forall q :: q != id ==> GetPoll(q) == old(GetPoll(q))
    {
      var found := FindOption(pollOptions, optionId);
      if found.None? || pollOptions[found.value].pollId != id {
        return NotFound;
      }
      if HasVoted(pollVotes, id, userIp) {
        return BadRequest(AlreadyVotedMessage);
      }
      var k := found.value;
      var record := PollVote(nextVoteId, id, userIp, now);
      VoteKeepsValid(polls, pollOptions, pollVotes, nextPollId, nextOptionId, postedTally, wrapCount, k, record);
      VoteTouchesOnlyItsPoll(pollOptions, pollVotes, k, record);
      wrapCount := CountWrap(wrapCount, pollOptions[k]);
      pollOptions := CountVoteAt(pollOptions, k);
      pollVotes := pollVotes + [record];
      nextVoteId := nextVoteId + 1;
      r := NoContent;
    }

    /** `Polls.Add` then `SaveChangesAsync`: the poll row and its option rows
        are inserted with the next free keys. */
    method SavePoll(row: PollRow, rows: seq<PollOption>)
      requires Valid()
      requires row.id == nextPollId && FreshRows(rows, nextOptionId, nextPollId)
      modifies this
      ensures Valid()
      ensures row.id !in PollIds(old(polls))
      ensures polls == old(polls) + [row] && pollOptions == old(pollOptions) + rows && pollVotes == old(pollVotes)
      ensures nextPollId == old(nextPollId) + 1 && nextOptionId == old(nextOptionId) + |rows|
              && nextVoteId == old(nextVoteId)
      ensures postedTally == old(postedTally)[row.id := Tally(rows, row.id)] && wrapCount == old(wrapCount)[row.id := 0]
      ensures OptionsOf(pollOptions, row.id) == rows
      ensures forall q :: q != row.id ==> OptionsOf(pollOptions, q) == OptionsOf(old(pollOptions), q)
    {
      PostKeepsValid(polls, pollOptions, pollVotes, nextPollId, nextOptionId, postedTally, wrapCount, row, rows);
      NothingOwnedByNextPoll(polls, pollOptions, pollVotes, nextPollId);
      OptionsOfAppendOwned(pollOptions, rows, row.id);
      polls := polls + [row];
      pollOptions := pollOptions + rows;
      nextPollId := nextPollId + 1;
      nextOptionId := nextOptionId + |rows|;
      postedTally := postedTally[row.id := Tally(rows, row.id)];
      wrapCount := wrapCount[row.id := 0];
    }

    /** POST api/Poll at time `now`. The database assigns the keys; the
        counters are stored as the request carries them. */
    method PostPoll(request: Poll, now: Timestamp) returns (r: PostResult)
      requires Valid()
      modifies this
      ensures Valid()
      ensures r == ValidationProblem <==> !IsValidPoll(request)
      ensures r == ValidationProblem ==>
              polls == old(polls) && pollOptions == old(pollOptions) && pollVotes == old(pollVotes)
      ensures r == ValidationProblem ==>
              nextPollId == old(nextPollId) && nextOptionId == old(nextOptionId) && nextVoteId == old(nextVoteId)
              && postedTally == old(postedTally) && wrapCount == old(wrapCount)
      ensures r.Created? ==>
              nextPollId == old(nextPollId) + 1 && nextOptionId == old(nextOptionId) + |request.options|
              && nextVoteId == old(nextVoteId)
              && postedTally == old(postedTally)[old(nextPollId) := Tally(r.poll.options, old(nextPollId))]
              && wrapCount == old(wrapCount)[old(nextPollId) := 0]
      ensures r.Created? ==>
              var pollId := old(nextPollId);
              && pollId !in PollIds(old(polls))
              && r.poll.id == pollId && r.poll.question == request.question && r.poll.createdAt == now
              && r.poll.options == PostedRows(request.options, old(nextOptionId), pollId)
              && polls == old(polls) + [PollRow(pollId, request.question, now)]
              && pollOptions == old(pollOptions) + r.poll.options
              && pollVotes == old(pollVotes)
      ensures r.Created? ==> GetPoll(r.poll.id) == Some(r.poll)
      ensures forall q :: q != old(nextPollId) ==> GetPoll(q) == old(GetPoll(q))
    {
      if !IsValidPoll(request) {
        return ValidationProblem;
      }
      var pollId := nextPollId;
      var rows := PostedRows(request.options, nextOptionId, pollId);
      var row := PollRow(pollId, request.question, now);
      ghost var before := pollOptions;
      SavePoll(row, rows);
      PostedPollIsFound(old(polls), before, row, rows, pollOptions);
      r := Created(Poll(pollId, request.question, now, rows));
    }
  }
}
