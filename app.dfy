/**
 * `handle_query` (ui/app.py): records the question, pairs earlier questions
 * with their replies for the backend, asks the backend, records the reply or
 * a chart placeholder, and turns the suggested next steps into buttons. The
 * widgets themselves are not modelled; the outcome says what is shown.
 */
module App {
  import opened Wrappers
  import opened Text
  import opened Backends
  import ChartGenerator
  import RagPipeline

  datatype Role = User | Assistant

  /** An entry of `st.session_state.messages`. */
  datatype Message = Message(role: Role, content: string)

  /** The first assistant message at index `from` or later. */
  function NextAssistant(msgs: seq<Message>, from: nat): (r: Option<nat>)
    decreases |msgs| - from
    ensures r.Some? ==> from <= r.value < |msgs| && msgs[r.value].role == Assistant
    ensures r.None? ==> forall j :: from <= j < |msgs| ==> msgs[j].role != Assistant
  {
    if from >= |msgs| then None
    else if msgs[from].role == Assistant then Some(from)
    else NextAssistant(msgs, from + 1)
  }

  /** No assistant message lies between `from` and the one `NextAssistant` finds. */
  lemma {:induction false} NextAssistantIsFirst(msgs: seq<Message>, from: nat, j: nat)
    requires from <= j < |msgs| && msgs[j].role == Assistant
    decreases j - from
    ensures NextAssistant(msgs, from).Some? && NextAssistant(msgs, from).value <= j
  {
    if msgs[from].role != Assistant {
      NextAssistantIsFirst(msgs, from + 1, j);
    }
  }

  /** The pair for the user message at `i`: its content and that of the next assistant message. */
  function PairAt(msgs: seq<Message>, i: nat): (string, string)
    requires i < |msgs| && NextAssistant(msgs, i + 1).Some?
  {
    (msgs[i].content, msgs[NextAssistant(msgs, i + 1).value].content)
  }

  /** A user message that some later assistant message answers. */
  predicate Answered(msgs: seq<Message>, i: nat)
    requires i < |msgs|
  {
    msgs[i].role == User && NextAssistant(msgs, i + 1).Some?
  }

  /** The pairs of the answered user messages below index `n`, in order. */
  function PairsBefore(msgs: seq<Message>, n: nat): seq<(string, string)>
    requires n <= |msgs|
  {
    if n == 0 then []
    else if Answered(msgs, n - 1) then PairsBefore(msgs, n - 1) + [PairAt(msgs, n - 1)]
    else PairsBefore(msgs, n - 1)
  }

  /** The indices of the answered user messages below `n`, in order. */
  function AnsweredBefore(msgs: seq<Message>, n: nat): seq<nat>
    requires n <= |msgs|
  {
    if n == 0 then []
    else if Answered(msgs, n - 1) then AnsweredBefore(msgs, n - 1) + [n - 1]
    else AnsweredBefore(msgs, n - 1)
  }

  /** The number of user messages below `n`. */
  function UsersBefore(msgs: seq<Message>, n: nat): nat
    requires n <= |msgs|
  {
    if n == 0 then 0
    else UsersBefore(msgs, n - 1) + (if msgs[n - 1].role == User then 1 else 0)
  }

  /** The history passed to the backend: the pairs of every message but the last. */
  function ChatHistory(msgs: seq<Message>): RagPipeline.History {
    if msgs == [] then [] else PairsBefore(msgs, |msgs| - 1)
  }

  /**
   * The pairs follow the answered user messages: exactly these indices, in
   * increasing order, each paired with the first assistant message after it.
   */
  lemma {:induction false} PairsFollowAnswered(msgs: seq<Message>, n: nat)
    requires n <= |msgs|
    ensures var idx := AnsweredBefore(msgs, n);
      && |PairsBefore(msgs, n)| == |idx|
      && (forall k :: 0 <= k < |idx| ==> idx[k] < n && Answered(msgs, idx[k]) && PairsBefore(msgs, n)[k] == PairAt(msgs, idx[k]))
      && (forall k, m :: 0 <= k < m < |idx| ==> idx[k] < idx[m])
      && (forall i :: 0 <= i < n && Answered(msgs, i) ==> i in idx)
  {
    if n > 0 {
      PairsFollowAnswered(msgs, n - 1);
    }
  }

  /** There are never more pairs than user messages. */
  lemma {:induction false} PairsAtMostUsers(msgs: seq<Message>, n: nat)
    requires n <= |msgs|
    ensures |PairsBefore(msgs, n)| <= UsersBefore(msgs, n)
  {
    if n > 0 {
      PairsAtMostUsers(msgs, n - 1);
    }
  }

  /** Two user messages in a row are paired with the same reply. */
  lemma ConsecutiveQuestionsShareReply(msgs: seq<Message>, i: nat)
    requires i + 1 < |msgs| && msgs[i].role == User && msgs[i + 1].role == User
    requires NextAssistant(msgs, i + 1).Some?
    ensures Answered(msgs, i) && Answered(msgs, i + 1)
    ensures PairAt(msgs, i).1 == PairAt(msgs, i + 1).1
  {
  }

  /**
   * The pairing loop of `handle_query`: for every user message but the last
   * message, the inner loop runs to the end of the list and stops at the
   * first assistant message.
   */
  method BuildChatHistory(msgs: seq<Message>) returns (history: RagPipeline.History)
    ensures history == ChatHistory(msgs)
  {
    history := [];
    var last := if msgs == [] then 0 else |msgs| - 1;
    var i := 0;
    while i < last
      invariant 0 <= i <= last
      invariant history == PairsBefore(msgs, i)
    {
      if msgs[i].role == User {
        var j := i + 1;
        while j < |msgs|
          invariant i + 1 <= j <= |msgs|
          invariant NextAssistant(msgs, i + 1) == NextAssistant(msgs, j)
          invariant history == PairsBefore(msgs, i)
        {
          if msgs[j].role == Assistant {
            history := history + [(msgs[i].content, msgs[j].content)];
            break;
          }
          j := j + 1;
        }
      }
      i := i + 1;
    }
  }

  /** The texts that are not empty, in order. */
  function NonEmpty(texts: seq<string>): (r: seq<string>)
    ensures |r| <= |texts|
    ensures forall k :: 0 <= k < |r| ==> r[k] != "" && r[k] in texts
  {
    if texts == [] then []
    else if texts[0] != "" then [texts[0]] + NonEmpty(texts[1..])
    else NonEmpty(texts[1..])
  }

  /** A text is kept exactly when it occurs and is not empty. */
  lemma {:induction false} NonEmptyMeans(texts: seq<string>, q: string)
    ensures q in NonEmpty(texts) <==> q != "" && q in texts
  {
    if texts != [] {
      NonEmptyMeans(texts[1..], q);
      assert texts == [texts[0]] + texts[1..];
    }
  }

  /** The filter works piece by piece: it keeps order and duplicates, and looks at one text at a time. */
  lemma {:induction false} NonEmptyAppend(a: seq<string>, b: seq<string>)
    ensures NonEmpty(a + b) == NonEmpty(a) + NonEmpty(b)
    ensures forall t :: NonEmpty([t]) == (if t == "" then [] else [t])
  {
    if a != [] {
      assert (a + b)[0] == a[0];
      assert (a + b)[1..] == a[1..] + b;
      NonEmptyAppend(a[1..], b);
    } else {
      assert a + b == b;
    }
    forall t ensures NonEmpty([t]) == (if t == "" then [] else [t]) {
      assert [t][1..] == [];
    }
  }

  /** Each line stripped, the ones left empty dropped, in order. */
  function StrippedNonEmpty(lines: seq<string>): (r: seq<string>)
    ensures |r| <= |lines|
    ensures forall k :: 0 <= k < |r| ==> r[k] != "" && IsStripped(r[k])
  {
    var stripped := seq(|lines|, k requires 0 <= k < |lines| => Strip(lines[k]));
    var r := NonEmpty(stripped);
    assert forall k :: 0 <= k < |r| ==> IsStripped(r[k]) by {
      forall k | 0 <= k < |r| ensures IsStripped(r[k]) {
        var j :| 0 <= j < |stripped| && stripped[j] == r[k];
      }
    }
    r
  }

  /** A line's stripped text is kept exactly when it is not empty. */
  lemma StrippedNonEmptyMeans(lines: seq<string>, q: string)
    ensures q in StrippedNonEmpty(lines) <==> q != "" && exists k :: 0 <= k < |lines| && Strip(lines[k]) == q
  {
    var stripped := seq(|lines|, k requires 0 <= k < |lines| => Strip(lines[k]));
    NonEmptyMeans(stripped, q);
    if q in stripped {
      var k :| 0 <= k < |stripped| && stripped[k] == q;
      assert Strip(lines[k]) == q;
    }
    if exists k :: 0 <= k < |lines| && Strip(lines[k]) == q {
      var k :| 0 <= k < |lines| && Strip(lines[k]) == q;
      assert stripped[k] == q;
    }
  }

  /** The follow-up questions offered for a `next_steps` text: its non-blank lines, stripped. */
  function FollowUpCandidates(nextSteps: string): seq<string> {
    StrippedNonEmpty(Split(nextSteps, '\n'))
  }

  /**
   * The stripping filter works line by line: candidates keep the lines'
   * order and duplicates, and a line gives its strip or nothing.
   */
  lemma StrippedNonEmptyAppend(a: seq<string>, b: seq<string>)
    ensures StrippedNonEmpty(a + b) == StrippedNonEmpty(a) + StrippedNonEmpty(b)
    ensures forall l :: StrippedNonEmpty([l]) == (if Strip(l) == "" then [] else [Strip(l)])
  {
    var sa := seq(|a|, k requires 0 <= k < |a| => Strip(a[k]));
    var sb := seq(|b|, k requires 0 <= k < |b| => Strip(b[k]));
    var ab := a + b;
    assert seq(|ab|, k requires 0 <= k < |ab| => Strip(ab[k])) == sa + sb;
    NonEmptyAppend(sa, sb);
    forall l ensures StrippedNonEmpty([l]) == (if Strip(l) == "" then [] else [Strip(l)]) {
      assert seq(1, k requires 0 <= k < 1 => Strip([l][k])) == [Strip(l)];
    }
  }

  /** A newline separates the candidates of both sides: candidates keep the lines' order. */
  lemma FollowUpCandidatesAppend(a: string, b: string)
    ensures FollowUpCandidates(a + "\n" + b) == FollowUpCandidates(a) + FollowUpCandidates(b)
  {
    SplitAround(a, b, '\n');
    StrippedNonEmptyAppend(Split(a, '\n'), Split(b, '\n'));
  }

  /** A single line offers its strip as the one candidate, unless that is empty. */
  lemma FollowUpCandidatesOfLine(line: string)
    requires '\n' !in line
    ensures FollowUpCandidates(line) == if Strip(line) == "" then [] else [Strip(line)]
  {
    SplitJoin([line], '\n');
    assert Split(line, '\n') == [line];
    StrippedNonEmptyAppend([], [line]);
  }

  /** A candidate's text after its first '.', stripped; a candidate without a '.' is kept whole. */
  function CleanQuestion(q: string): string {
    if '.' in q then Strip(q[IndexOf(q, '.') + 1..]) else q
  }

  /**
   * A numbering prefix is removed: whatever precedes the first '.' goes,
   * and the rest is stripped.
   */
  lemma CleanQuestionDropsNumbering(prefix: string, rest: string)
    requires '.' !in prefix
    ensures CleanQuestion(prefix + "." + rest) == Strip(rest)
  {
    var q := prefix + "." + rest;
    assert q[|prefix|] == '.';
    assert q[..|prefix|] == prefix;
    assert q[|prefix| + 1..] == rest;
  }

  /** A candidate without a '.' is offered as it is. */
  lemma CleanQuestionKeepsUnnumbered(q: string)
    requires '.' !in q
    ensures CleanQuestion(q) == q
  {
  }

  /** A cleaned candidate is stripped. */
  lemma CleanQuestionStripped(q: string)
    requires IsStripped(q)
    ensures IsStripped(CleanQuestion(q))
  {
  }

  /** A suggestion button: its text and its widget key. */
  datatype Button = Button(text: string, key: string)

  /** The widget key of the button for candidate `i` when `messageCount` messages are recorded. */
  function ButtonKey(messageCount: nat, i: nat): string {
    "next_step_" + NatToString(messageCount) + "_" + NatToString(i)
  }

  /** Keys made with the same message count differ when the positions differ. */
  lemma ButtonKeyInjective(messageCount: nat, i: nat, j: nat)
    requires ButtonKey(messageCount, i) == ButtonKey(messageCount, j)
    ensures i == j
  {
    var lead := "next_step_" + NatToString(messageCount) + "_";
    assert ButtonKey(messageCount, i) == lead + NatToString(i);
    assert ButtonKey(messageCount, j) == lead + NatToString(j);
    ConcatCancel(lead, NatToString(i), lead, NatToString(j));
    NatToStringInjective(i, j);
  }

  /** The positions, from `i` on, of the candidates whose cleaned text is not empty. */
  function ButtonPositions(questions: seq<string>, i: nat): (r: seq<nat>)
    requires i <= |questions|
    decreases |questions| - i
    ensures forall k :: 0 <= k < |r| ==> i <= r[k] < |questions| && CleanQuestion(questions[r[k]]) != ""
    ensures forall k, m :: 0 <= k < m < |r| ==> r[k] < r[m]
    ensures forall j :: i <= j < |questions| && CleanQuestion(questions[j]) != "" ==> j in r
  {
    if i == |questions| then []
    else if CleanQuestion(questions[i]) != "" then [i] + ButtonPositions(questions, i + 1)
    else ButtonPositions(questions, i + 1)
  }

  /** One button per candidate whose cleaned text is not empty, keyed by the candidate's position. */
  function CandidateButtons(questions: seq<string>, messageCount: nat): seq<Button> {
    var positions := ButtonPositions(questions, 0);
    seq(|positions|, k requires 0 <= k < |positions| =>
      Button(CleanQuestion(questions[positions[k]]), ButtonKey(messageCount, positions[k])))
  }

  /** The buttons shown for a `next_steps` text, `messageCount` messages being recorded. */
  function NextStepButtons(nextSteps: string, messageCount: nat): seq<Button> {
    if nextSteps == "" then [] else CandidateButtons(FollowUpCandidates(nextSteps), messageCount)
  }

  /** `btn` is the button of candidate `j`: its cleaned text, not empty, under the key of position `j`. */
  predicate ButtonFor(questions: seq<string>, messageCount: nat, j: int, btn: Button) {
    && 0 <= j < |questions| && CleanQuestion(questions[j]) != ""
    && btn == Button(CleanQuestion(questions[j]), ButtonKey(messageCount, j))
  }

  /** `btn` is the button of some candidate. */
  predicate IsCandidateButton(questions: seq<string>, messageCount: nat, btn: Button) {
    exists j :: 0 <= j < |questions| && ButtonFor(questions, messageCount, j, btn)
  }

  /**
   * The buttons are exactly the candidates whose cleaned text is not empty,
   * one each, in candidate order: every button is such a candidate's, every
   * such candidate has its button, and an earlier candidate's button comes
   * before a later one's.
   */
  lemma ButtonsFollowCandidates(questions: seq<string>, messageCount: nat)
    ensures var b := CandidateButtons(questions, messageCount);
      && (forall k :: 0 <= k < |b| ==> IsCandidateButton(questions, messageCount, b[k]))
      && (forall j :: 0 <= j < |questions| && CleanQuestion(questions[j]) != "" ==>
            exists k :: 0 <= k < |b| && ButtonFor(questions, messageCount, j, b[k]))
      && (forall k, m, j, j' ::
            (0 <= k < m < |b| && ButtonFor(questions, messageCount, j, b[k]) && ButtonFor(questions, messageCount, j', b[m]))
            ==> j < j')
  {
    var b := CandidateButtons(questions, messageCount);
    var p := ButtonPositions(questions, 0);
    forall k | 0 <= k < |b| ensures IsCandidateButton(questions, messageCount, b[k]) {
      assert ButtonFor(questions, messageCount, p[k], b[k]);
    }
    forall j | 0 <= j < |questions| && CleanQuestion(questions[j]) != ""
      ensures exists k :: 0 <= k < |b| && ButtonFor(questions, messageCount, j, b[k])
    {
      var k :| 0 <= k < |p| && p[k] == j;
      assert ButtonFor(questions, messageCount, j, b[k]);
    }
    forall k, m, j, j' |
      0 <= k < m < |b| && ButtonFor(questions, messageCount, j, b[k]) && ButtonFor(questions, messageCount, j', b[m])
      ensures j < j'
    {
      ButtonKeyInjective(messageCount, p[k], j);
      ButtonKeyInjective(messageCount, p[m], j');
    }
  }

  /** An empty `next_steps` offers no candidates, so the buttons are always those of the candidates. */
  lemma NextStepButtonsOfCandidates(nextSteps: string, messageCount: nat)
    ensures NextStepButtons(nextSteps, messageCount) == CandidateButtons(FollowUpCandidates(nextSteps), messageCount)
  {
    if nextSteps == "" {
      assert Split(nextSteps, '\n') == [""];
      StrippedNonEmptyAppend([], [""]);
      assert FollowUpCandidates(nextSteps) == [];
    }
  }

  /** Every button carries a non-empty cleaned candidate, and no two of them share a key. */
  lemma ButtonsWellKeyed(nextSteps: string, messageCount: nat)
    ensures var b := NextStepButtons(nextSteps, messageCount);
      && (forall k :: 0 <= k < |b| ==> b[k].text != "")
      && (forall k, m :: 0 <= k < m < |b| ==> b[k].key != b[m].key)
  {
    var b := NextStepButtons(nextSteps, messageCount);
    if nextSteps != "" {
      var positions := ButtonPositions(FollowUpCandidates(nextSteps), 0);
      forall k, m | 0 <= k < m < |b| ensures b[k].key != b[m].key {
        if b[k].key == b[m].key {
          ButtonKeyInjective(messageCount, positions[k], positions[m]);
        }
      }
    }
  }

  /** The text recorded for an assistant reply that is a chart. */
  const ChartPlaceholder: string := "[Chart generated above]"

  /** The content recorded for a response: the placeholder whenever it reads as JSON, else the response. */
  function RecordedContent(response: string, loads: ChartGenerator.Loads): string {
    if ChartGenerator.IsJson(response, loads).0 then ChartPlaceholder else response
  }

  /**
   * A response read as JSON is recorded as the placeholder, whatever the chart
   * attempt gives: the recorded content does not depend on plotting at all.
   */
  lemma ChartRecordedEvenOnError(response: string, loads: ChartGenerator.Loads)
    requires ChartGenerator.IsJson(response, loads).0
    ensures ChartGenerator.IsJson(response, loads).1.Some?
    ensures RecordedContent(response, loads) == ChartPlaceholder
  {
  }

  /** A response that does not read as JSON is recorded verbatim. */
  lemma TextRecordedVerbatim(response: string, loads: ChartGenerator.Loads)
    requires !ChartGenerator.IsJson(response, loads).0
    ensures RecordedContent(response, loads) == response
  {
  }

  /** The line shown for each source: its `source` metadata, or "N/A". */
  function SourceLines(sources: seq<Metadata>): (r: seq<string>)
    ensures |r| == |sources|
  {
    seq(|sources|, k requires 0 <= k < |sources| =>
      "Source: " + (if "source" in sources[k] then sources[k]["source"] else "N/A"))
  }

  /** What a call of `handle_query` ends in. */
  datatype Outcome =
    /** `generate_answer` raised. */
    | Raised(error: RagPipeline.RagError)
    /** The bare message cannot be unpacked into three values. */
    | UnpackFailed
    /** A reply: the chart attempt when it read as JSON, the source lines and the buttons. */
    | Shown(chart: Option<(Option<ChartGenerator.Figure>, Option<string>)>, sources: seq<string>, buttons: seq<Button>)

  /**
   * One turn of `handle_query` for the backend's result: the messages after
   * it and its outcome. The user message is always recorded; an assistant
   * message only for a triple.
   */
  function Turn(messages: seq<Message>, prompt: string, answer: Result<RagPipeline.Answer, RagPipeline.RagError>,
                loads: ChartGenerator.Loads, repr: ChartGenerator.Json -> string, plot: ChartGenerator.Plot)
    : (seq<Message>, Outcome)
  {
    var asked := messages + [Message(User, prompt)];
    match answer
    case Failure(e) => (asked, Raised(e))
    case Success(Bare(_)) => (asked, UnpackFailed)
    case Success(Triple(response, sources, nextSteps)) =>
      var (isChartJson, jsonStr) := ChartGenerator.IsJson(response, loads);
      var chart := if isChartJson then Some(ChartGenerator.CreateChart(jsonStr.value, loads, repr, plot)) else None;
      var answered := asked + [Message(Assistant, RecordedContent(response, loads))];
      (answered, Shown(chart, if sources == [] then [] else SourceLines(sources), NextStepButtons(nextSteps, |answered|)))
  }

  /**
   * Every turn records the question first; a triple adds exactly one
   * assistant message after it, and the button keys count both.
   */
  lemma TurnRecordsMessages(messages: seq<Message>, prompt: string, answer: Result<RagPipeline.Answer, RagPipeline.RagError>,
                            loads: ChartGenerator.Loads, repr: ChartGenerator.Json -> string, plot: ChartGenerator.Plot)
    ensures var (after, outcome) := Turn(messages, prompt, answer, loads, repr, plot);
      && after[..|messages| + 1] == messages + [Message(User, prompt)]
      && (outcome.Shown? <==> answer.Success? && answer.value.Triple?)
      && (outcome.Shown? ==>
            && |after| == |messages| + 2
            && after[|messages| + 1] == Message(Assistant, RecordedContent(answer.value.response, loads))
            && outcome.buttons == NextStepButtons(answer.value.nextSteps, |messages| + 2))
      && (!outcome.Shown? ==> |after| == |messages| + 1)
  {
    var (after, outcome) := Turn(messages, prompt, answer, loads, repr, plot);
    if outcome.Shown? {
      assert after == (messages + [Message(User, prompt)]) + [after[|messages| + 1]];
    }
  }

  /** `st.session_state`: the recorded messages and the session's backend. */
  class Session {
    var messages: seq<Message>
    const ragPipeline: RagPipeline.RagPipeline

    constructor(rag: RagPipeline.RagPipeline)
      ensures messages == [] && ragPipeline == rag
    {
      messages := [];
      ragPipeline := rag;
    }

    /** `handle_query(prompt)`, as `Turn` describes it for the answer the backend gives. */
    method HandleQuery(prompt: string, store: Store, embed: RagPipeline.Embed, nearest: Nearest,
                       generate: RagPipeline.Generate, loads: ChartGenerator.Loads,
                       repr: ChartGenerator.Json -> string, plot: ChartGenerator.Plot)
      returns (outcome: Outcome)
      requires ragPipeline.Valid()
      modifies this, ragPipeline
      ensures ragPipeline.Valid()
      ensures old(ragPipeline.collection).Some? ==> ragPipeline.Components() == old(ragPipeline.Components())
      ensures var found := old(ragPipeline.collection).Some? || RagPipeline.CollectionName in store.collections;
        var entries := store.Contents(RagPipeline.CollectionName);
        var history := ChatHistory(old(messages) + [Message(User, prompt)]);
        var docs := RagPipeline.Retrieved(entries, RagPipeline.FullQuery(prompt, history), embed, nearest).0;
        && (found ==> ragPipeline.Ready())
        && ragPipeline.llmCalls ==
             old(ragPipeline.llmCalls) + (if found then RagPipeline.AnswerPrompts(prompt, docs, RagPipeline.LoadedLlm, generate) else [])
      ensures var asked := old(messages) + [Message(User, prompt)];
        var answer :=
          if old(ragPipeline.collection).Some? || RagPipeline.CollectionName in store.collections
          then Success(RagPipeline.AnswerFor(store.Contents(RagPipeline.CollectionName), prompt, ChatHistory(asked), embed, nearest, generate))
          else Failure(RagPipeline.CollectionNotFound(RagPipeline.CollectionName));
        (messages, outcome) == Turn(old(messages), prompt, answer, loads, repr, plot)
    {
      messages := messages + [Message(User, prompt)];
      var history := BuildChatHistory(messages);
      var r := ragPipeline.GenerateAnswer(prompt, history, store, embed, nearest, generate);
      if r.Failure? {
        return Raised(r.error);
      }
      if r.value.Bare? {
        return UnpackFailed;
      }
      var Triple(response, sources, nextSteps) := r.value;
      var (isChartJson, jsonStr) := ChartGenerator.IsJson(response, loads);
      var chart := None;
      if isChartJson {
        var figAndErr := ChartGenerator.CreateChart(jsonStr.value, loads, repr, plot);
        chart := Some(figAndErr);
        messages := messages + [Message(Assistant, ChartPlaceholder)];
      } else {
        messages := messages + [Message(Assistant, response)];
      }
      var sourceLines := if sources == [] then [] else SourceLines(sources);
      return Shown(chart, sourceLines, NextStepButtons(nextSteps, |messages|));
    }
  }
}
