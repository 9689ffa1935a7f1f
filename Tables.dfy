/** Queries over the three tables of the store (polls, options, vote
    records), each kept as a sequence of rows in insertion order, and the
    facts about them that the controller's invariants rest on. */
module Tables {
  import opened Wrappers
  import opened Models

  /** 2^32: C#'s `int` arithmetic is exact modulo this number. */
  const Modulus: int := 0x1_0000_0000

  /** `option.Votes++` on a C# `int` in an unchecked context. */
  function Inc32(v: Int32): (r: Int32)
    ensures r > v <==> v < MaxInt32
    ensures r as int == v as int + 1 - (if v < MaxInt32 then 0 else Modulus)
  {
    if v == MaxInt32 then MinInt32 else v + 1
  }

  /** `PollOptions.FindAsync(optionId)`: the row whose key is `optionId`. */
  function FindOption(options: seq<PollOption>, optionId: int): (r: Option<nat>)
    ensures r.Some? ==> r.value < |options| && options[r.value].id == optionId
    ensures r.Some? ==> forall j :: 0 <= j < r.value ==> options[j].id != optionId
    ensures r.None? <==> forall j :: 0 <= j < |options| ==> options[j].id != optionId
  {
    if options == [] then None
    else if options[0].id == optionId then Some(0)
    else match FindOption(options[1..], optionId)
      case None => None
      case Some(k) => Some(k + 1)
  }

  /** The guard of `Vote`: the option exists and its `PollID` is `pollId`. */
  predicate OptionBelongsTo(options: seq<PollOption>, optionId: int, pollId: int)
  {
    match FindOption(options, optionId)
    case None => false
    case Some(k) => options[k].pollId == pollId
  }

  predicate UniqueOptionIds(options: seq<PollOption>)
  {
    forall i, j :: 0 <= i < j < |options| ==> options[i].id != options[j].id
  }

  /** With keys unique, the guard holds exactly when some row has both the
      key and the owning poll. */
  lemma {:induction false} BelongsIffSomeRow(options: seq<PollOption>, optionId: int, pollId: int)
    requires UniqueOptionIds(options)
    ensures OptionBelongsTo(options, optionId, pollId) <==>
            exists k :: 0 <= k < |options| && options[k].id == optionId && options[k].pollId == pollId
  {
    if k :| 0 <= k < |options| && options[k].id == optionId && options[k].pollId == pollId {
      var f := FindOption(options, optionId);
      assert f.Some?;
      assert f.value == k by {
        if f.value < k {
          assert options[f.value].id == options[k].id;
        }
      }
    }
  }

  /** With keys unique, a row's own key and owner pass the guard. */
  lemma {:induction false} BelongsAt(options: seq<PollOption>, k: int)
    requires UniqueOptionIds(options) && 0 <= k < |options|
    ensures OptionBelongsTo(options, options[k].id, options[k].pollId)
  {
    BelongsIffSomeRow(options, options[k].id, options[k].pollId);
  }

  /** `Include(p => p.Options)`: the options owned by `pollId`, in table order. */
  function OptionsOf(options: seq<PollOption>, pollId: int): (r: seq<PollOption>)
    ensures |r| <= |options|
  {
    if options == [] then []
    else
      var last := options[|options| - 1];
      OptionsOf(options[..|options| - 1], pollId) + (if last.pollId == pollId then [last] else [])
  }

  /** The loaded options are exactly the rows that name `pollId` as their owner. */
  lemma {:induction false} OptionsOfMembers(options: seq<PollOption>, pollId: int)
    ensures forall o :: o in OptionsOf(options, pollId) <==> o in options && o.pollId == pollId
  {
    if options != [] {
      var init, last := options[..|options| - 1], options[|options| - 1];
      assert options == init + [last];
      OptionsOfMembers(init, pollId);
    }
  }

  lemma {:induction false} OptionsOfMembersAll(options: seq<PollOption>)
    ensures forall pollId, o :: o in OptionsOf(options, pollId) <==> o in options && o.pollId == pollId
  {
    forall pollId ensures forall o :: o in OptionsOf(options, pollId) <==> o in options && o.pollId == pollId {
      OptionsOfMembers(options, pollId);
    }
  }

  /** The sum of the vote counters of the options owned by `pollId`. */
  function Tally(options: seq<PollOption>, pollId: int): int
  {
    if options == [] then 0
    else
      var last := options[|options| - 1];
      Tally(options[..|options| - 1], pollId) + (if last.pollId == pollId then last.votes else 0)
  }

  /** The number of vote records of poll `pollId`. */
  function VoteCount(votes: seq<PollVote>, pollId: int): nat
  {
    if votes == [] then 0
    else VoteCount(votes[..|votes| - 1], pollId) + (if votes[|votes| - 1].pollId == pollId then 1 else 0)
  }

  /** `PollVotes.AnyAsync(v => v.PollID == pollId && v.UserIP == userIp)`;
      a null address matches a null address. */
  predicate HasVoted(votes: seq<PollVote>, pollId: int, userIp: Option<string>)
  {
    exists i :: 0 <= i < |votes| && votes[i].pollId == pollId && votes[i].userIp == userIp
  }

  /** At most one vote record per (poll, address) pair. */
  predicate OneVotePerVoter(votes: seq<PollVote>)
  {
    forall i, j :: 0 <= i < j < |votes| ==>
      votes[i].pollId != votes[j].pollId || votes[i].userIp != votes[j].userIp
  }

  lemma {:induction false} AppendNewVoterKeepsOneVote(votes: seq<PollVote>, v: PollVote)
    requires OneVotePerVoter(votes) && !HasVoted(votes, v.pollId, v.userIp)
    ensures OneVotePerVoter(votes + [v])
    ensures HasVoted(votes + [v], v.pollId, v.userIp)
  {
    var w := votes + [v];
    assert w[|votes|] == v;
    forall i, j | 0 <= i < j < |w|
      ensures w[i].pollId != w[j].pollId || w[i].userIp != w[j].userIp
    {
      if j == |votes| {
        assert w[i] == votes[i];
      }
    }
  }

  lemma {:induction false} OptionsOfAppend(a: seq<PollOption>, b: seq<PollOption>, pollId: int)
    ensures OptionsOf(a + b, pollId) == OptionsOf(a, pollId) + OptionsOf(b, pollId)
    decreases |b|
  {
    if b == [] {
      assert a + b == a;
    } else {
      var b' := b[..|b| - 1];
      assert (a + b)[..|a + b| - 1] == a + b';
      assert (a + b)[|a + b| - 1] == b[|b| - 1];
      OptionsOfAppend(a, b', pollId);
    }
  }

  lemma {:induction false} OptionsOfNone(options: seq<PollOption>, pollId: int)
    requires forall i :: 0 <= i < |options| ==> options[i].pollId != pollId
    ensures OptionsOf(options, pollId) == []
  {
    if options != [] {
      OptionsOfNone(options[..|options| - 1], pollId);
    }
  }

  lemma {:induction false} OptionsOfAll(options: seq<PollOption>, pollId: int)
    requires forall i :: 0 <= i < |options| ==> options[i].pollId == pollId
    ensures OptionsOf(options, pollId) == options
  {
    if options != [] {
      var init := options[..|options| - 1];
      OptionsOfAll(init, pollId);
      assert options == init + [options[|options| - 1]];
    }
  }

  /** Appending rows that all name `pollId` to a table where no row names it:
      those rows are exactly that poll's options, and every other poll keeps
      its options. */
  lemma {:induction false} OptionsOfAppendOwned(options: seq<PollOption>, rows: seq<PollOption>, pollId: int)
    requires forall i :: 0 <= i < |options| ==> options[i].pollId != pollId
    requires forall i :: 0 <= i < |rows| ==> rows[i].pollId == pollId
    ensures OptionsOf(options + rows, pollId) == rows
    ensures forall q :: q != pollId ==> OptionsOf(options + rows, q) == OptionsOf(options, q)
  {
    OptionsOfAppend(options, rows, pollId);
    OptionsOfNone(options, pollId);
    OptionsOfAll(rows, pollId);
    forall q | q != pollId ensures OptionsOf(options + rows, q) == OptionsOf(options, q) {
      OptionsOfAppend(options, rows, q);
      OptionsOfNone(rows, q);
    }
  }

  /** Rewriting one row without moving it to another poll leaves every
      other poll's options as they were. */
  lemma {:induction false} OptionsOfUpdateOther(options: seq<PollOption>, k: nat, o: PollOption, pollId: int)
    requires k < |options| && o.pollId == options[k].pollId && options[k].pollId != pollId
    ensures OptionsOf(options[k := o], pollId) == OptionsOf(options, pollId)
  {
    var n := |options| - 1;
    if k < n {
      assert options[k := o][..n] == options[..n][k := o];
      OptionsOfUpdateOther(options[..n], k, o, pollId);
    } else {
      assert options[k := o][..n] == options[..n];
    }
  }

  lemma {:induction false} TallyAppend(a: seq<PollOption>, b: seq<PollOption>, pollId: int)
    ensures Tally(a + b, pollId) == Tally(a, pollId) + Tally(b, pollId)
    decreases |b|
  {
    if b == [] {
      assert a + b == a;
    } else {
      var b' := b[..|b| - 1];
      assert (a + b)[..|a + b| - 1] == a + b';
      assert (a + b)[|a + b| - 1] == b[|b| - 1];
      TallyAppend(a, b', pollId);
    }
  }

  lemma {:induction false} TallyNone(options: seq<PollOption>, pollId: int)
    requires forall i :: 0 <= i < |options| ==> options[i].pollId != pollId
    ensures Tally(options, pollId) == 0
  {
    if options != [] {
      TallyNone(options[..|options| - 1], pollId);
    }
  }

  /** Rewriting the counter of row `k` changes its own poll's tally by the
      difference and no other poll's. */
  lemma {:induction false} TallyUpdate(options: seq<PollOption>, k: nat, o: PollOption, pollId: int)
    requires k < |options| && o.pollId == options[k].pollId
    ensures Tally(options[k := o], pollId) ==
            Tally(options, pollId) + (if o.pollId == pollId then o.votes - options[k].votes else 0)
  {
    var n := |options| - 1;
    if k < n {
      assert options[k := o][..n] == options[..n][k := o];
      TallyUpdate(options[..n], k, o, pollId);
    } else {
      assert options[k := o][..n] == options[..n];
    }
  }

  lemma {:induction false} VoteCountNone(votes: seq<PollVote>, pollId: int)
    requires forall i :: 0 <= i < |votes| ==> votes[i].pollId != pollId
    ensures VoteCount(votes, pollId) == 0
  {
    if votes != [] {
      VoteCountNone(votes[..|votes| - 1], pollId);
    }
  }

  /** Appending a record adds one to its own poll's count and nothing to
      any other poll's. */
  lemma {:induction false} VoteCountAppend(votes: seq<PollVote>, v: PollVote, pollId: int)
    ensures VoteCount(votes + [v], pollId) == VoteCount(votes, pollId) + (if v.pollId == pollId then 1 else 0)
  {
    assert (votes + [v])[..|votes|] == votes;
  }
}
