/** The option-list editor of the "create poll" page. Every handler builds a
    fresh list from the current one; the page keeps at least two entries. */
module CreatePoll {

  /** The fewest entries the editor lets the list shrink to. */
  const MinOptions: nat := 2

  /** The list the page starts with: two blank entries. */
  function InitialOptions(): (r: seq<string>)
    ensures |r| == MinOptions
    ensures forall i :: 0 <= i < |r| ==> r[i] == ""
  {
    ["", ""]
  }

  /** `handleOptionChange(index, value)`: the entry at `index` now reads `value`. */
  function ChangeOption(options: seq<string>, index: int, value: string): (r: seq<string>)
    requires 0 <= index < |options|
    ensures |r| == |options|
    ensures r[index] == value
    ensures forall i :: 0 <= i < |options| && i != index ==> r[i] == options[i]
  {
    options[index := value]
  }

  /** `addOption`: one blank entry at the end, the rest kept as it was. */
  function AddOption(options: seq<string>): (r: seq<string>)
    ensures |r| == |options| + 1
    ensures r[..|options|] == options
    ensures r[|options|] == ""
  {
    options + [""]
  }

  /** `options.filter((_, i) => i !== index)`: the entries whose position is
      not `index`, in their order. An index outside the list drops nothing. */
  function Without(options: seq<string>, index: int): (r: seq<string>)
    ensures 0 <= index < |options| ==> r == options[..index] + options[index + 1..]
    ensures !(0 <= index < |options|) ==> r == options
  {
    if options == [] then []
    else
      var n := |options| - 1;
      var kept := Without(options[..n], index);
      assert options[..n] + [options[n]] == options;
      if n == index then kept else kept + [options[n]]
  }

  /** `removeOption(index)`: nothing happens while the list is at its minimum;
      otherwise exactly the entry at `index` goes. */
  function RemoveOption(options: seq<string>, index: int): (r: seq<string>)
    ensures |options| <= MinOptions ==> r == options
    ensures |options| > MinOptions && 0 <= index < |options| ==>
              |r| == |options| - 1 && r == options[..index] + options[index + 1..]
    ensures !(0 <= index < |options|) ==> r == options
  {
    if |options| <= MinOptions then options else Without(options, index)
  }

  /** One option of the request body: its text and a zero count. */
  datatype OptionPayload = OptionPayload(text: string, votes: int)

  /** The request body `handleSubmit` posts. */
  datatype PollData = PollData(question: string, options: seq<OptionPayload>)

  /** `handleSubmit`'s payload: the question, and one `{text, votes: 0}` per
      entry, in the list's order. */
  function SubmitPayload(question: string, options: seq<string>): (p: PollData)
    ensures p.question == question
    ensures |p.options| == |options|
    ensures forall i :: 0 <= i < |options| ==> p.options[i].text == options[i] && p.options[i].votes == 0
  {
    PollData(question, seq(|options|, i requires 0 <= i < |options| => OptionPayload(options[i], 0)))
  }

  /** The browser's check of the `required` inputs before it fires the submit
      handler: no field is empty. */
  predicate CanSubmit(question: string, options: seq<string>)
  {
    question != "" && forall i :: 0 <= i < |options| ==> options[i] != ""
  }

  /** What the user can do to the list. */
  datatype Edit = Change(index: int, value: string) | Add | Remove(index: int)

  /** An edit the page can issue on this list: a change names a rendered entry. */
  predicate Enabled(options: seq<string>, e: Edit)
  {
    e.Change? ==> 0 <= e.index < |options|
  }

  /** The list after one edit; a list at or above the minimum stays there. */
  function Step(options: seq<string>, e: Edit): (r: seq<string>)
    requires Enabled(options, e)
    ensures |options| >= MinOptions ==> |r| >= MinOptions
  {
    match e
    case Change(i, v) => ChangeOption(options, i, v)
    case Add => AddOption(options)
    case Remove(i) => RemoveOption(options, i)
  }

  /** Every edit of the run is enabled on the list it applies to. */
  predicate Feasible(options: seq<string>, edits: seq<Edit>)
    decreases |edits|
  {
    edits == [] || (Enabled(options, edits[0]) && Feasible(Step(options, edits[0]), edits[1..]))
  }

  /** The list after a run of edits, in order. */
  function Run(options: seq<string>, edits: seq<Edit>): seq<string>
    requires Feasible(options, edits)
    decreases |edits|
  {
    if edits == [] then options else Run(Step(options, edits[0]), edits[1..])
  }

  /** No run of edits takes a list below the minimum. */
  lemma {:induction false} RunKeepsMinimum(options: seq<string>, edits: seq<Edit>)
    requires |options| >= MinOptions
    requires Feasible(options, edits)
    ensures |Run(options, edits)| >= MinOptions
    decreases |edits|
  {
    if edits != [] {
      RunKeepsMinimum(Step(options, edits[0]), edits[1..]);
    }
  }

  /** Whatever the user does on the page, the list keeps at least two entries. */
  lemma {:induction false} PageKeepsTwoOptions(edits: seq<Edit>)
    requires Feasible(InitialOptions(), edits)
    ensures |Run(InitialOptions(), edits)| >= 2
  {
    RunKeepsMinimum(InitialOptions(), edits);
  }
}
