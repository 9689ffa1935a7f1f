/** The server's records: a poll, one of its answer options, and the record
    that some network address has voted in a poll. */
module Models {
  import opened Wrappers

  /** Bounds of C#'s `int`, the type of every key and counter below. */
  const MinInt32: int := -0x8000_0000
  const MaxInt32: int := 0x7fff_ffff

  type Int32 = x: int | MinInt32 <= x <= MaxInt32

  /** A reading of the server clock (`DateTime.UtcNow`), kept as a number of ticks. */
  type Timestamp = int

  /** A poll with the options that belong to it. A `null` question is written
      here as the empty string: the `[Required]` check treats both alike. */
  datatype Poll = Poll(id: int, question: string, createdAt: Timestamp, options: seq<PollOption>)

  /** An answer option; `pollId` is the key of the poll that owns it. */
  datatype PollOption = PollOption(id: int, text: string, votes: Int32, pollId: int)

  /** The record that `userIp` has voted in poll `pollId`. It names no option. */
  datatype PollVote = PollVote(id: int, pollId: int, userIp: Option<string>, votedAt: Timestamp)

  /** The characters .NET's `char.IsWhiteSpace` accepts. */
  predicate IsWhiteSpace(c: char)
  {
    || '\t' <= c <= '\r'
    || c == ' ' || c == '\U{85}' || c == '\U{A0}' || c == '\U{1680}'
    || '\U{2000}' <= c <= '\U{200A}'
    || c == '\U{2028}' || c == '\U{2029}' || c == '\U{202F}' || c == '\U{205F}' || c == '\U{3000}'
  }

  /** What `[Required]` accepts of a string: it is not null, not empty and
      not made of white space only. */
  predicate HasText(s: string)
    ensures HasText(s) ==> s != ""
  {
    exists i :: 0 <= i < |s| && !IsWhiteSpace(s[i])
  }

  /** Model validation of a posted poll: its question and the text of every
      one of its options are required. */
  predicate IsValidPoll(p: Poll)
    ensures IsValidPoll(p) ==> p.question != "" && forall k :: 0 <= k < |p.options| ==> p.options[k].text != ""
  {
    && HasText(p.question)
    && forall k :: 0 <= k < |p.options| ==> HasText(p.options[k].text)
  }

  /** `new Poll()`: no options yet, created now, and no question, so that it
      does not pass validation until one is set. */
  function NewPoll(now: Timestamp): (p: Poll)
    ensures p.options == [] && p.createdAt == now
    ensures !IsValidPoll(p)
  {
    Poll(0, "", now, [])
  }

  /** `new PollOption()`: no votes yet and no text, so that it is rejected by
      validation until its text is set. */
  function NewPollOption(): (o: PollOption)
    ensures o.votes == 0
    ensures !HasText(o.text)
  {
    PollOption(0, "", 0, 0)
  }
}
