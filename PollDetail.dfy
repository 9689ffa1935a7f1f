/** The poll page of the client: it loads one poll, lets the visitor pick an
    option and vote once, then shows the counts as a bar chart. */
module PollDetail {
  import opened Wrappers

  /** An option as the page holds it after loading the poll. */
  datatype ClientOption = ClientOption(id: int, text: string, votes: int, pollId: int)

  /** A poll as the page holds it; `createdAt` is the date text the server sent. */
  datatype ClientPoll = ClientPoll(id: int, question: string, createdAt: string, options: seq<ClientOption>)

  /** How a request ended: an answer with an ok status (and its body), an
      answer with an error status, or no answer at all (the exception's message). */
  datatype Response<T> = Ok(body: T) | NotOk | Failed(message: string)

  const PollNotFoundMessage := "Poll not found"
  const VoteFailedMessage := "Failed to submit vote"

  /** `!selectedOption` is false: an option is selected and its id is not 0. */
  predicate Truthy(selected: Option<int>)
  {
    selected.Some? && selected.value != 0
  }

  /** `options.find(opt => opt.id === id)`: the position of the first option with that id. */
  function FindIndex(options: seq<ClientOption>, id: int): (r: Option<nat>)
    ensures r.Some? ==> r.value < |options| && options[r.value].id == id
    ensures r.Some? ==> forall j :: 0 <= j < r.value ==> options[j].id != id
    ensures r.None? <==> forall j :: 0 <= j < |options| ==> options[j].id != id
  {
    if options == [] then None
    else if options[0].id == id then Some(0)
    else match FindIndex(options[1..], id)
      case None => None
      case Some(k) => Some(k + 1)
  }

  /** The local update after an accepted vote: the first option whose id is
      `id` counts one more vote; nothing else changes. */
  function CountVote(options: seq<ClientOption>, id: int): (r: seq<ClientOption>)
    ensures |r| == |options|
    ensures FindIndex(options, id).None? ==> r == options
    ensures FindIndex(options, id).Some? ==>
              var k := FindIndex(options, id).value;
              && r[k] == options[k].(votes := options[k].votes + 1)
              && forall j :: 0 <= j < |options| && j != k ==> r[j] == options[j]
  {
    match FindIndex(options, id)
    case None => options
    case Some(k) => options[k := options[k].(votes := options[k].votes + 1)]
  }

  /** The sum of the counts the page shows. */
  function TotalVotes(options: seq<ClientOption>): int
  {
    if options == [] then 0 else TotalVotes(options[..|options| - 1]) + options[|options| - 1].votes
  }

  /** Changing the count at one position changes the total by the same amount. */
  lemma {:induction false} TotalVotesUpdate(options: seq<ClientOption>, k: int, o: ClientOption)
    requires 0 <= k < |options|
    ensures TotalVotes(options[k := o]) == TotalVotes(options) - options[k].votes + o.votes
    decreases |options|
  {
    var n := |options| - 1;
    var updated := options[k := o];
    assert updated[..n] == if k == n then options[..n] else options[..n][k := o];
    if k < n {
      TotalVotesUpdate(options[..n], k, o);
    }
  }

  /** The local update adds exactly one vote in all when the chosen option is
      on the page, and none otherwise. */
  lemma {:induction false} CountVoteTotal(options: seq<ClientOption>, id: int)
    ensures TotalVotes(CountVote(options, id)) ==
            TotalVotes(options) + (if FindIndex(options, id).Some? then 1 else 0)
  {
    match FindIndex(options, id)
    case None =>
    case Some(k) =>
      var o := options[k].(votes := options[k].votes + 1);
      assert CountVote(options, id) == options[k := o];
      TotalVotesUpdate(options, k, o);
  }

  /** One bar series of the chart; `caption` is its `label`. */
  datatype Dataset = Dataset(caption: string, data: seq<int>)

  /** What `getChartData` hands to the chart: one label per bar and the series. */
  datatype ChartData = ChartData(labels: seq<string>, datasets: seq<Dataset>)

  /** `getChartData`: no bars without a poll; otherwise one bar per option, in
      option order, labelled with its text and as tall as its count. */
  function ChartOf(poll: Option<ClientPoll>): (c: ChartData)
    ensures poll.None? ==> c.labels == [] && c.datasets == []
    ensures poll.Some? ==>
              && |c.labels| == |poll.value.options|
              && |c.datasets| == 1 && c.datasets[0].caption == "Votes"
              && |c.datasets[0].data| == |poll.value.options|
              && forall i :: 0 <= i < |poll.value.options| ==>
                   c.labels[i] == poll.value.options[i].text && c.datasets[0].data[i] == poll.value.options[i].votes
  {
    match poll
    case None => ChartData([], [])
    case Some(p) =>
      var options := p.options;
      ChartData(seq(|options|, i requires 0 <= i < |options| => options[i].text),
                [Dataset("Votes", seq(|options|, i requires 0 <= i < |options| => options[i].votes))])
  }

  /** After an accepted vote the chart keeps its labels and its bars; only the
      bar of the chosen option grows, by one. */
  lemma {:induction false} ChartAfterVote(p: ClientPoll, id: int)
    ensures var before := ChartOf(Some(p));
            var after := ChartOf(Some(p.(options := CountVote(p.options, id))));
            && after.labels == before.labels
            && |after.datasets[0].data| == |before.datasets[0].data|
            && forall i :: 0 <= i < |p.options| ==>
                 after.datasets[0].data[i] == before.datasets[0].data[i] + (if FindIndex(p.options, id) == Some(i) then 1 else 0)
  {
  }

  /** Which panels the page shows below the question. */
  datatype Panels = Panels(voteForm: bool, results: bool)

  /** The vote form shows until the visitor has voted or asked for the
      results; from then on the results show instead. */
  function PanelsFor(hasVoted: bool, showResults: bool): (p: Panels)
    ensures p.voteForm <==> !hasVoted && !showResults
    ensures p.results <==> hasVoted || showResults
    ensures p.voteForm != p.results
  {
    Panels(!hasVoted && !showResults, showResults || hasVoted)
  }

  /** What the page renders. */
  datatype Screen =
    | Loading
    | ErrorScreen(message: string)
    | NotFoundScreen
    | Detail(question: string, panels: Panels, chart: ChartData)

  /** The page's state and the browser's list of polls voted from here. */
  class PollDetailView {
    /** The poll id in the address, as text. */
    const routeId: string
    var poll: Option<ClientPoll>
    var loading: bool
    var selectedOption: Option<int>
    var hasVoted: bool
    var showResults: bool
    var error: Option<string>
    /** The `votedPolls` list kept in the browser's local storage. */
    var votedPolls: seq<string>

    /** The page only ever says "voted" for a poll the browser has recorded. */
    ghost predicate Valid()
      reads this
    {
      hasVoted ==> routeId in votedPolls
    }

    /** The page as first mounted, before the poll arrives. */
    constructor (routeId: string, storedVotedPolls: seq<string>)
      ensures Valid()
      ensures this.routeId == routeId && votedPolls == storedVotedPolls
      ensures poll.None? && loading && selectedOption.None?
      ensures !hasVoted && !showResults && error.None?
    {
      this.routeId := routeId;
      poll := None;
      loading := true;
      selectedOption := None;
      hasVoted := false;
      showResults := false;
      error := None;
      votedPolls := storedVotedPolls;
    }

    /** `fetchPoll`: on an ok answer the poll is shown and `hasVoted` tells
        whether this browser recorded a vote in it; otherwise the error is
        kept. Loading is over either way. */
    method FetchPoll(response: Response<ClientPoll>)
      modifies this
      requires Valid()
      ensures Valid()
      ensures !loading
      ensures votedPolls == old(votedPolls) && selectedOption == old(selectedOption) && showResults == old(showResults)
      ensures response.Ok? ==> poll == Some(response.body) && (hasVoted <==> routeId in votedPolls) && error == old(error)
      ensures response.NotOk? ==> error == Some(PollNotFoundMessage)
      ensures response.Failed? ==> error == Some(response.message)
      ensures !response.Ok? ==> poll == old(poll) && hasVoted == old(hasVoted)
    {
      match response {
        case Ok(data) =>
          poll := Some(data);
          hasVoted := routeId in votedPolls;
        case NotOk =>
          error := Some(PollNotFoundMessage);
        case Failed(message) =>
          error := Some(message);
      }
      loading := false;
    }

    /** A click on an option of the vote form. */
    method SelectOption(id: int)
      modifies this
      requires Valid()
      ensures Valid()
      ensures selectedOption == Some(id)
      ensures poll == old(poll) && votedPolls == old(votedPolls) && hasVoted == old(hasVoted)
      ensures showResults == old(showResults) && error == old(error) && loading == old(loading)
    {
      selectedOption := Some(id);
    }

    /** "View Results": the results replace the vote form. */
    method ViewResults()
      modifies this
      requires Valid()
      ensures Valid()
      ensures showResults && PanelsFor(hasVoted, showResults).results
      ensures poll == old(poll) && votedPolls == old(votedPolls) && hasVoted == old(hasVoted)
      ensures selectedOption == old(selectedOption) && error == old(error) && loading == old(loading)
    {
      showResults := true;
    }

    /** `handleVote`, given how the server answers the vote request. Without a
        selection or a poll no request goes out and nothing changes. When the
        request fails only the error is set. When it succeeds the chosen
        option counts one more vote, the poll id is recorded as voted and the
        results show. */
    method HandleVote(response: Response<()>)
      modifies this
      requires Valid()
      ensures Valid()
      ensures selectedOption == old(selectedOption) && loading == old(loading)
      ensures !Truthy(old(selectedOption)) || old(poll).None? ==>
                poll == old(poll) && votedPolls == old(votedPolls) && hasVoted == old(hasVoted)
                && showResults == old(showResults) && error == old(error)
      ensures Truthy(old(selectedOption)) && old(poll).Some? && !response.Ok? ==>
                && poll == old(poll) && votedPolls == old(votedPolls) && hasVoted == old(hasVoted)
                && showResults == old(showResults)
                && error == Some(if response.NotOk? then VoteFailedMessage else response.message)
      ensures Truthy(old(selectedOption)) && old(poll).Some? && response.Ok? ==>
                && poll == Some(old(poll).value.(options := CountVote(old(poll).value.options, old(selectedOption).value)))
                && votedPolls == old(votedPolls) + [routeId]
                && hasVoted && showResults && error == old(error)
                && PanelsFor(hasVoted, showResults) == Panels(false, true)
    {
      if !Truthy(selectedOption) || poll.None? {
        return;
      }
      match response
      case Ok(_) =>
        var p := poll.value;
        poll := Some(p.(options := CountVote(p.options, selectedOption.value)));
        votedPolls := votedPolls + [routeId];
        hasVoted := true;
        showResults := true;
      case NotOk =>
        error := Some(VoteFailedMessage);
      case Failed(message) =>
        error := Some(message);
    }

    /** What the page renders in its current state: the loading note, then
        any error, then "not found" without a poll, and otherwise the question
        with the panels and the chart. */
    function Render(): (s: Screen)
      reads this
      ensures loading <==> s.Loading?
      ensures s.ErrorScreen? <==> !loading && error.Some? && error.value != ""
      ensures s.ErrorScreen? ==> s.message == error.value
      ensures s.NotFoundScreen? <==> !loading && (error.None? || error.value == "") && poll.None?
      ensures s.Detail? ==>
                && poll.Some? && s.question == poll.value.question
                && s.panels == PanelsFor(hasVoted, showResults)
                && s.chart == ChartOf(poll)
    {
      if loading then Loading
      else if error.Some? && error.value != "" then ErrorScreen(error.value)
      else if poll.None? then NotFoundScreen
      else Detail(poll.value.question, PanelsFor(hasVoted, showResults), ChartOf(poll))
    }
  }

  /** A visitor opens a poll, picks an option and votes: the page shows the
      results with the vote counted. Later the visitor opens the same poll
      again and the server answers `later`: the vote is remembered in the
      browser, so the results show at once, charted from that answer. */
  method VoteThenRevisit(routeId: string, stored: seq<string>, p: ClientPoll, optionId: int, later: ClientPoll)
    returns (first: Screen, second: Screen)
    requires optionId != 0
    ensures first.Detail? && first.panels == Panels(false, true)
    ensures first.chart == ChartOf(Some(p.(options := CountVote(p.options, optionId))))
    ensures second.Detail? && second.panels == Panels(false, true)
    ensures second.chart == ChartOf(Some(later))
  {
    var view := new PollDetailView(routeId, stored);
    view.FetchPoll(Ok(p));
    view.SelectOption(optionId);
    view.HandleVote(Ok(()));
    first := view.Render();
    var again := new PollDetailView(routeId, view.votedPolls);
    again.FetchPoll(Ok(later));
    second := again.Render();
  }
}
