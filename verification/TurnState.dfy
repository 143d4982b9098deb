/** Assembly of streamed provider deltas into one model turn. */
module TurnState {
  import Decimal

  datatype FinishReason = Stop | ToolCalls | Length | ContentFilter

  datatype ToolCall = ToolCall(id: string, name: string, arguments: string)

  datatype Usage = Usage(prompt: nat, completion: nat, total: nat)

  datatype StreamDelta =
    | Text(text: string)
    | Reasoning(text: string)
    | ToolCallStart(index: nat, id: string, name: string)
    | ToolCallArguments(index: nat, fragment: string)
    | Finish(reason: FinishReason, usage: Usage)

  datatype CompletedTurn = CompletedTurn(
    content: string, reasoning: string, finishReason: FinishReason, usage: Usage, toolCalls: seq<ToolCall>)

  const NO_USAGE := Usage(0, 0, 0)

  // ---- What a list of deltas means, part by part ----

  function ContentOf(ds: seq<StreamDelta>): string {
    if ds == [] then "" else ContentOf(ds[..|ds| - 1]) + (if ds[|ds| - 1].Text? then ds[|ds| - 1].text else "")
  }

  function ReasoningOf(ds: seq<StreamDelta>): string {
    if ds == [] then "" else ReasoningOf(ds[..|ds| - 1]) + (if ds[|ds| - 1].Reasoning? then ds[|ds| - 1].text else "")
  }

  /** The last reported reason other than `Stop`, if there is one. */
  function ReasonOf(ds: seq<StreamDelta>): FinishReason {
    if ds == [] then Stop
    else
      var d := ds[|ds| - 1];
      if d.Finish? && d.reason != Stop then d.reason else ReasonOf(ds[..|ds| - 1])
  }

  /** The last usage that reports anything. */
  function UsageOf(ds: seq<StreamDelta>): Usage {
    if ds == [] then NO_USAGE
    else
      var d := ds[|ds| - 1];
      if d.Finish? && d.usage != NO_USAGE then d.usage else UsageOf(ds[..|ds| - 1])
  }

  predicate AboutCall(d: StreamDelta, index: nat) {
    (d.ToolCallStart? || d.ToolCallArguments?) && d.index == index
  }

  /** The deltas about one tool call, in order. */
  function About(ds: seq<StreamDelta>, index: nat): seq<StreamDelta> {
    if ds == [] then [] else About(ds[..|ds| - 1], index) + (if AboutCall(ds[|ds| - 1], index) then [ds[|ds| - 1]] else [])
  }

  /** One call from its own deltas: a start begins it afresh, a fragment before any start names
      it after its index. */
  function CallOf(own: seq<StreamDelta>, index: nat): ToolCall
    requires own != [] && forall d <- own :: AboutCall(d, index)
  {
    var d, before := own[|own| - 1], own[..|own| - 1];
    assert AboutCall(own[|own| - 1], index);
    if d.ToolCallStart? then ToolCall(d.id, d.name, "")
    else if before == [] then ToolCall("call_" + Decimal.Digits(index), "", d.fragment)
    else
      var call := CallOf(before, index);
      call.(arguments := call.arguments + d.fragment)
  }

  // ---- The accumulator ----

  class TurnAccumulator {
    var content: string
    var reasoning: string
    var finishReason: FinishReason
    var finishSeen: bool
    var usage: Usage
    var toolCalls: map<nat, ToolCall>

    /** The fields are those of a turn that has received `ds`. */
    ghost predicate Holds(ds: seq<StreamDelta>)
      reads this
    {
      && content == ContentOf(ds) && reasoning == ReasoningOf(ds)
      && finishReason == ReasonOf(ds) && usage == UsageOf(ds)
      && (!finishSeen ==> finishReason == Stop)
      && CallsMatch(toolCalls, ds)
    }

    constructor ()
      ensures Holds([])
    {
      content, reasoning, finishReason, finishSeen := "", "", Stop, false;
      usage, toolCalls := NO_USAGE, map[];
    }

    method Apply(d: StreamDelta, ghost ds: seq<StreamDelta>)
      requires Holds(ds)
      modifies this
      ensures Holds(ds + [d])
    {
      assert (ds + [d])[..|ds|] == ds;
      CallsStep(toolCalls, ds, d);
      match d {
        case Text(text) => content := content + text;
        case Reasoning(text) => reasoning := reasoning + text;
        case ToolCallStart(index, id, name) => toolCalls := toolCalls[index := ToolCall(id, name, "")];
        case ToolCallArguments(index, fragment) =>
          var call := if index in toolCalls then toolCalls[index] else ToolCall("call_" + Decimal.Digits(index), "", "");
          toolCalls := toolCalls[index := call.(arguments := call.arguments + fragment)];
        case Finish(reason, reported) =>
          if reported.total > 0 || reported.prompt > 0 || reported.completion > 0 {
            usage := reported;
          }
          if !finishSeen || reason != Stop {
            finishReason := reason;
            finishSeen := true;
          }
      }
      assert content == ContentOf(ds + [d]) && reasoning == ReasoningOf(ds + [d]);
    }

    /** The calls in ascending index order, as the source's ordered map yields them. */
    method Complete(ghost ds: seq<StreamDelta>) returns (turn: CompletedTurn)
      requires Holds(ds)
      ensures turn == Assemble(ds)
    {
      var calls := [];
      var rest := toolCalls;
      while rest != map[]
        invariant CallsMatch(toolCalls, ds)
        invariant calls + Listing(rest) == Listing(toolCalls)
        decreases |rest|
      {
        MinKeyExists(rest.Keys);
        ghost var m :| IsMin(rest.Keys, m);
        assert m in rest && forall j :: j in rest ==> m <= j;
        var index :| index in rest && forall j :: j in rest ==> index <= j;
        assert index == MinKey(rest.Keys);
        calls := calls + [rest[index]];
        ghost var before := rest;
        rest := rest - {index};
        assert |rest| < |before| by { assert rest.Keys == before.Keys - {index}; }
        assert Listing(before) == [before[index]] + Listing(rest);
      }
      ListingIsOf(toolCalls, ds);
      turn := CompletedTurn(content, reasoning, finishReason, usage, calls);
    }
  }

  ghost predicate CallsMatch(calls: map<nat, ToolCall>, ds: seq<StreamDelta>) {
    forall i: nat ::
      && (i in calls <==> About(ds, i) != [])
      && (i in calls ==> calls[i] == CallFor(ds, i))
  }

  lemma {:induction false} AboutIsOwn(ds: seq<StreamDelta>, index: nat)
    ensures forall d <- About(ds, index) :: AboutCall(d, index)
  {
    if ds != [] { AboutIsOwn(ds[..|ds| - 1], index); }
  }

  /** The call at `index`, or an empty one. */
  function CallFor(ds: seq<StreamDelta>, index: nat): ToolCall {
    AboutIsOwn(ds, index);
    if About(ds, index) == [] then ToolCall("", "", "") else CallOf(About(ds, index), index)
  }

  function CallsAfter(calls: map<nat, ToolCall>, d: StreamDelta): map<nat, ToolCall> {
    match d
    case ToolCallStart(index, id, name) => calls[index := ToolCall(id, name, "")]
    case ToolCallArguments(index, fragment) =>
      var call := if index in calls then calls[index] else ToolCall("call_" + Decimal.Digits(index), "", "");
      calls[index := call.(arguments := call.arguments + fragment)]
    case _ => calls
  }

  lemma CallsStep(calls: map<nat, ToolCall>, ds: seq<StreamDelta>, d: StreamDelta)
    requires CallsMatch(calls, ds)
    ensures CallsMatch(CallsAfter(calls, d), ds + [d])
  {
    forall i: nat
      ensures i in CallsAfter(calls, d) <==> About(ds + [d], i) != []
      ensures i in CallsAfter(calls, d) ==> CallsAfter(calls, d)[i] == CallFor(ds + [d], i)
    {
      AboutStep(ds, d, i);
      if AboutCall(d, i) { CallStep(ds, d, i); }
    }
  }

  lemma AboutStep(ds: seq<StreamDelta>, d: StreamDelta, i: nat)
    ensures About(ds + [d], i) == if AboutCall(d, i) then About(ds, i) + [d] else About(ds, i)
  {
    assert (ds + [d])[..|ds|] == ds;
    assert About(ds, i) + [] == About(ds, i);
  }

  lemma CallStep(ds: seq<StreamDelta>, d: StreamDelta, i: nat)
    requires AboutCall(d, i)
    ensures CallFor(ds + [d], i) ==
            if d.ToolCallStart? then ToolCall(d.id, d.name, "")
            else
              var call := if About(ds, i) == [] then ToolCall("call_" + Decimal.Digits(i), "", "") else CallFor(ds, i);
              call.(arguments := call.arguments + d.fragment)
  {
    AboutStep(ds, d, i);
    AboutIsOwn(ds, i);
    AboutIsOwn(ds + [d], i);
    var own := About(ds, i) + [d];
    assert own[..|own| - 1] == About(ds, i) && own[|own| - 1] == d;
    if d.ToolCallArguments? { assert "" + d.fragment == d.fragment; }
  }

  // ---- Ordered listing ----

  ghost predicate IsMin(keys: set<nat>, m: nat) {
    m in keys && forall j :: j in keys ==> m <= j
  }

  lemma {:induction false} MinKeyExists(keys: set<nat>)
    requires keys != {}
    ensures exists m :: IsMin(keys, m)
  {
    var x :| x in keys;
    if keys == {x} {
      assert IsMin(keys, x);
    } else {
      MinKeyExists(keys - {x});
      var m :| IsMin(keys - {x}, m);
      var least := if x <= m then x else m;
      forall j | j in keys ensures least <= j {
        if j != x { assert j in keys - {x}; }
      }
      assert IsMin(keys, least);
    }
  }

  ghost function MinKey(keys: set<nat>): (m: nat)
    requires keys != {}
    ensures IsMin(keys, m)
  {
    MinKeyExists(keys);
    var m :| IsMin(keys, m);
    m
  }

  ghost function Listing(calls: map<nat, ToolCall>): seq<ToolCall>
    decreases |calls|
  {
    if calls == map[] then []
    else
      var m := MinKey(calls.Keys);
      assert (calls - {m}).Keys == calls.Keys - {m};
      [calls[m]] + Listing(calls - {m})
  }

  /** The indices that some delta mentions. */
  function Indices(ds: seq<StreamDelta>): set<nat> {
    if ds == [] then {}
    else
      var d := ds[|ds| - 1];
      Indices(ds[..|ds| - 1]) + (if d.ToolCallStart? || d.ToolCallArguments? then {d.index} else {})
  }

  lemma {:induction false} IndicesAbout(ds: seq<StreamDelta>, i: nat)
    ensures i in Indices(ds) <==> About(ds, i) != []
  {
    if ds != [] { IndicesAbout(ds[..|ds| - 1], i); }
  }

  ghost function CallsOf(ds: seq<StreamDelta>): map<nat, ToolCall> {
    map i | i in Indices(ds) :: CallFor(ds, i)
  }

  lemma ListingIsOf(calls: map<nat, ToolCall>, ds: seq<StreamDelta>)
    requires CallsMatch(calls, ds)
    ensures calls == CallsOf(ds)
  {
    forall i: nat ensures i in calls <==> i in Indices(ds) { IndicesAbout(ds, i); }
    assert calls.Keys == CallsOf(ds).Keys;
  }

  /** The turn that a complete stream of deltas means. */
  ghost function Assemble(ds: seq<StreamDelta>): CompletedTurn {
    CompletedTurn(ContentOf(ds), ReasoningOf(ds), ReasonOf(ds), UsageOf(ds), Listing(CallsOf(ds)))
  }

  // ---- Providers may order their deltas differently ----

  function Texts(ds: seq<StreamDelta>): seq<StreamDelta> {
    if ds == [] then [] else Texts(ds[..|ds| - 1]) + (if ds[|ds| - 1].Text? then [ds[|ds| - 1]] else [])
  }

  function Reasonings(ds: seq<StreamDelta>): seq<StreamDelta> {
    if ds == [] then [] else Reasonings(ds[..|ds| - 1]) + (if ds[|ds| - 1].Reasoning? then [ds[|ds| - 1]] else [])
  }

  function Finishes(ds: seq<StreamDelta>): seq<StreamDelta> {
    if ds == [] then [] else Finishes(ds[..|ds| - 1]) + (if ds[|ds| - 1].Finish? then [ds[|ds| - 1]] else [])
  }

  lemma {:induction false} TextsDecide(ds: seq<StreamDelta>)
    ensures ContentOf(ds) == ContentOf(Texts(ds))
  {
    if ds != [] {
      var front, d := ds[..|ds| - 1], ds[|ds| - 1];
      TextsDecide(front);
      assert (Texts(front) + [d])[..|Texts(front)|] == Texts(front);
      if !d.Text? { assert Texts(ds) == Texts(front) && ContentOf(ds) == ContentOf(front); }
    }
  }

  lemma {:induction false} ReasoningsDecide(ds: seq<StreamDelta>)
    ensures ReasoningOf(ds) == ReasoningOf(Reasonings(ds))
  {
    if ds != [] {
      var front, d := ds[..|ds| - 1], ds[|ds| - 1];
      ReasoningsDecide(front);
      assert (Reasonings(front) + [d])[..|Reasonings(front)|] == Reasonings(front);
      if !d.Reasoning? { assert Reasonings(ds) == Reasonings(front) && ReasoningOf(ds) == ReasoningOf(front); }
    }
  }

  lemma {:induction false} FinishesDecide(ds: seq<StreamDelta>)
    ensures ReasonOf(ds) == ReasonOf(Finishes(ds)) && UsageOf(ds) == UsageOf(Finishes(ds))
  {
    if ds != [] {
      var front, d := ds[..|ds| - 1], ds[|ds| - 1];
      FinishesDecide(front);
      assert (Finishes(front) + [d])[..|Finishes(front)|] == Finishes(front);
      if !d.Finish? { assert Finishes(ds) == Finishes(front); }
    }
  }

  lemma CallsDecide(a: seq<StreamDelta>, b: seq<StreamDelta>)
    requires forall i: nat :: About(a, i) == About(b, i)
    ensures CallsOf(a) == CallsOf(b)
  {
    forall i: nat ensures i in Indices(a) <==> i in Indices(b) {
      IndicesAbout(a, i);
      IndicesAbout(b, i);
    }
    hide About;
    hide Indices;
    forall i: nat ensures CallFor(a, i) == CallFor(b, i) { assert About(a, i) == About(b, i); }
  }

  /** However a provider interleaves its text, its reasoning, its finish metadata and the pieces of
      different tool calls, the assembled turn is the same; only the order within each matters. */
  lemma OrderAbsorbed(a: seq<StreamDelta>, b: seq<StreamDelta>)
    requires Texts(a) == Texts(b) && Reasonings(a) == Reasonings(b) && Finishes(a) == Finishes(b)
    requires forall i: nat :: About(a, i) == About(b, i)
    ensures Assemble(a) == Assemble(b)
  {
    TextsDecide(a);
    TextsDecide(b);
    ReasoningsDecide(a);
    ReasoningsDecide(b);
    FinishesDecide(a);
    FinishesDecide(b);
    CallsDecide(a, b);
    hide Texts;
    hide Reasonings;
    hide Finishes;
    hide About;
    hide CallsOf;
  }

  /** The indices before `i`. */
  ghost function Below(keys: set<nat>, i: nat): set<nat> {
    set j | j in keys && j < i
  }

  lemma BelowStep(keys: set<nat>, m: nat, i: nat)
    requires m in keys && (forall j :: j in keys ==> m <= j) && i in keys
    ensures |Below(keys, i)| == if i == m then 0 else 1 + |Below(keys - {m}, i)|
  {
    if i == m {
      assert Below(keys, i) == {};
    } else {
      assert Below(keys, i) == {m} + Below(keys - {m}, i);
    }
  }

  /** One call for each mentioned index, each placed after exactly the calls of smaller indices. */
  lemma {:induction false} ListingOrdered(calls: map<nat, ToolCall>, i: nat)
    ensures |Listing(calls)| == |calls|
    ensures i in calls ==> |Below(calls.Keys, i)| < |calls| && Listing(calls)[|Below(calls.Keys, i)|] == calls[i]
    decreases |calls|
  {
    if calls != map[] {
      var m := MinKey(calls.Keys);
      var rest := calls - {m};
      assert rest.Keys == calls.Keys - {m};
      ListingOrdered(rest, i);
      if i in calls { BelowStep(calls.Keys, m, i); }
    }
  }

  // ---- What the assembled turn says, in terms of single deltas ----

  /** The last delta that reports a reason other than `Stop` is the one at `i`. */
  predicate DecidesReason(ds: seq<StreamDelta>, i: nat, reason: FinishReason) {
    && i < |ds| && ds[i].Finish? && ds[i].reason == reason != Stop
    && forall j :: i < j < |ds| && ds[j].Finish? ==> ds[j].reason == Stop
  }

  /** The last delta that reports any usage is the one at `i`. */
  predicate DecidesUsage(ds: seq<StreamDelta>, i: nat, usage: Usage) {
    && i < |ds| && ds[i].Finish? && ds[i].usage == usage != Usage(0, 0, 0)
    && forall j :: i < j < |ds| && ds[j].Finish? ==> ds[j].usage == Usage(0, 0, 0)
  }

  lemma {:induction false} ReasonIs(ds: seq<StreamDelta>, reason: FinishReason)
    ensures reason != Stop ==> (ReasonOf(ds) == reason <==> exists i: nat :: DecidesReason(ds, i, reason))
    ensures ReasonOf(ds) == Stop <==> forall i :: 0 <= i < |ds| && ds[i].Finish? ==> ds[i].reason == Stop
  {
    if ds != [] {
      var front, last := ds[..|ds| - 1], |ds| - 1;
      ReasonIs(front, reason);
      forall i: nat | i < last ensures front[i] == ds[i] {}
      if ds[last].Finish? && ds[last].reason != Stop {
        assert DecidesReason(ds, last, ds[last].reason);
      } else {
        forall i: nat ensures DecidesReason(ds, i, reason) <==> DecidesReason(front, i, reason) {}
      }
    }
  }

  lemma {:induction false} UsageIs(ds: seq<StreamDelta>, usage: Usage)
    ensures usage != NO_USAGE ==> (UsageOf(ds) == usage <==> exists i: nat :: DecidesUsage(ds, i, usage))
    ensures UsageOf(ds) == NO_USAGE <==> forall i :: 0 <= i < |ds| && ds[i].Finish? ==> ds[i].usage == NO_USAGE
  {
    if ds != [] {
      var front, last := ds[..|ds| - 1], |ds| - 1;
      UsageIs(front, usage);
      forall i: nat | i < last ensures front[i] == ds[i] {}
      if ds[last].Finish? && ds[last].usage != NO_USAGE {
        assert DecidesUsage(ds, last, ds[last].usage);
      } else {
        forall i: nat ensures DecidesUsage(ds, i, usage) <==> DecidesUsage(front, i, usage) {}
      }
    }
  }

  /** A turn ends for the reason r other than `Stop` exactly if some delta reports r and no later one reports
      anything but `Stop`; it ends with `Stop` exactly if no other reason is ever reported. */
  lemma FinishReasonIff(ds: seq<StreamDelta>, reason: FinishReason)
    ensures Assemble(ds).finishReason == reason <==>
            if reason == Stop then forall i :: 0 <= i < |ds| && ds[i].Finish? ==> ds[i].reason == Stop
            else exists i: nat :: DecidesReason(ds, i, reason)
  {
    ReasonIs(ds, reason);
  }

  /** The usage is the last one that reports anything at all. */
  lemma UsageIff(ds: seq<StreamDelta>, usage: Usage)
    ensures Assemble(ds).usage == usage <==>
            if usage == Usage(0, 0, 0) then forall i :: 0 <= i < |ds| && ds[i].Finish? ==> ds[i].usage == Usage(0, 0, 0)
            else exists i: nat :: DecidesUsage(ds, i, usage)
  {
    UsageIs(ds, usage);
  }

  lemma {:induction false} ContentConcat(a: seq<StreamDelta>, b: seq<StreamDelta>)
    ensures ContentOf(a + b) == ContentOf(a) + ContentOf(b)
    ensures ReasoningOf(a + b) == ReasoningOf(a) + ReasoningOf(b)
  {
    if b == [] {
      assert a + b == a;
    } else {
      assert (a + b)[..|a + b| - 1] == a + b[..|b| - 1];
      ContentConcat(a, b[..|b| - 1]);
    }
  }

  lemma OneFragment(d: StreamDelta)
    ensures ContentOf([d]) == if d.Text? then d.text else ""
    ensures ReasoningOf([d]) == if d.Reasoning? then d.text else ""
  {
    assert [d][..|[d]| - 1] == [];
    var text := if d.Text? || d.Reasoning? then d.text else "";
    assert "" + text == text;
  }

  /** Content and reasoning are the fragments of their kind, joined in the order they came. */
  lemma FragmentsAreJoined(a: seq<StreamDelta>, b: seq<StreamDelta>, d: StreamDelta)
    ensures Assemble(a + b).content == Assemble(a).content + Assemble(b).content
    ensures Assemble(a + b).reasoning == Assemble(a).reasoning + Assemble(b).reasoning
    ensures Assemble([d]).content == if d.Text? then d.text else ""
    ensures Assemble([d]).reasoning == if d.Reasoning? then d.text else ""
  {
    ContentConcat(a, b);
    OneFragment(d);
    hide ContentOf, ReasoningOf;
  }

  /** The argument fragments for one index, joined in the order they came. */
  function FragmentsOf(ds: seq<StreamDelta>, index: nat): string {
    if ds == [] then ""
    else
      var d := ds[|ds| - 1];
      FragmentsOf(ds[..|ds| - 1], index) + (if d.ToolCallArguments? && d.index == index then d.fragment else "")
  }

  /** The last start of the call at `index` is the delta at `k`. */
  predicate LastStart(ds: seq<StreamDelta>, index: nat, k: nat) {
    && k < |ds| && ds[k].ToolCallStart? && ds[k].index == index
    && forall j :: k < j < |ds| && ds[j].ToolCallStart? ==> ds[j].index != index
  }

  predicate NeverStarted(ds: seq<StreamDelta>, index: nat) {
    forall j :: 0 <= j < |ds| && ds[j].ToolCallStart? ==> ds[j].index != index
  }

  predicate IsMentioned(ds: seq<StreamDelta>, index: nat) {
    exists j :: 0 <= j < |ds| && AboutCall(ds[j], index)
  }

  lemma MentionedStep(front: seq<StreamDelta>, d: StreamDelta, index: nat)
    ensures IsMentioned(front + [d], index) <==> IsMentioned(front, index) || AboutCall(d, index)
  {
    var ds := front + [d];
    if AboutCall(d, index) { assert AboutCall(ds[|front|], index); }
    if IsMentioned(front, index) {
      var j :| 0 <= j < |front| && AboutCall(front[j], index);
      assert AboutCall(ds[j], index);
    }
  }

  lemma {:induction false} MentionedIff(ds: seq<StreamDelta>, index: nat)
    ensures index in Indices(ds) <==> IsMentioned(ds, index)
  {
    hide IsMentioned;
    if ds == [] {
      NothingMentioned(index);
    } else {
      var front, d := ds[..|ds| - 1], ds[|ds| - 1];
      MentionedIff(front, index);
      MentionedStep(front, d, index);
      assert ds == front + [d];
    }
  }

  lemma NothingMentioned(index: nat)
    ensures !IsMentioned([], index)
  {
  }

  lemma {:induction false} StartedCall(ds: seq<StreamDelta>, index: nat, k: nat)
    requires LastStart(ds, index, k)
    ensures CallFor(ds, index) == ToolCall(ds[k].id, ds[k].name, FragmentsOf(ds[k + 1..], index))
  {
    var front, d, after := ds[..|ds| - 1], ds[|ds| - 1], ds[k + 1..];
    assert ds == front + [d];
    if AboutCall(d, index) { CallStep(front, d, index); }
    AboutStep(front, d, index);
    if k < |front| {
      StartedCall(front, index, k);
      MentionedIff(front, index);
      IndicesAbout(front, index);
      assert AboutCall(front[k], index);
      assert after[..|after| - 1] == front[k + 1..] && after[|after| - 1] == d;
    }
    hide About, CallFor, Indices;
  }

  lemma {:induction false} UnstartedCall(ds: seq<StreamDelta>, index: nat)
    requires NeverStarted(ds, index)
    ensures !IsMentioned(ds, index) ==> FragmentsOf(ds, index) == ""
    ensures IsMentioned(ds, index) ==>
              CallFor(ds, index) == ToolCall("call_" + Decimal.Digits(index), "", FragmentsOf(ds, index))
  {
    if ds != [] {
      var front, d := ds[..|ds| - 1], ds[|ds| - 1];
      assert ds == front + [d];
      UnstartedCall(front, index);
      MentionedIff(front, index);
      IndicesAbout(front, index);
      AboutStep(front, d, index);
      if AboutCall(d, index) { CallStep(front, d, index); }
      assert IsMentioned(ds, index) <==> IsMentioned(front, index) || AboutCall(d, index) by {
        MentionedIff(ds, index);
      }
      hide About, CallFor, Indices;
    }
  }

  ghost function Mentioned(ds: seq<StreamDelta>): set<nat> {
    set k | 0 <= k < |ds| && (ds[k].ToolCallStart? || ds[k].ToolCallArguments?) :: ds[k].index
  }

  lemma CallsAreMentioned(ds: seq<StreamDelta>)
    ensures CallsOf(ds).Keys == Mentioned(ds) && |CallsOf(ds)| == |Mentioned(ds)|
  {
    forall i: nat ensures i in Indices(ds) <==> i in Mentioned(ds) { MentionedIff(ds, i); }
    assert CallsOf(ds).Keys == Mentioned(ds);
  }

  /** The turn has one call for each index mentioned, in the order of the indices. A call has the name and id of
      its last start and the arguments that came after that; one that was never started is named after its index
      and keeps all its arguments. */
  lemma AssembledCall(ds: seq<StreamDelta>, index: nat, k: nat)
    requires IsMentioned(ds, index)
    ensures var calls, place := Assemble(ds).toolCalls, |Below(Mentioned(ds), index)|;
            && |calls| == |Mentioned(ds)| && place < |calls|
            && (LastStart(ds, index, k) ==>
                  calls[place] == ToolCall(ds[k].id, ds[k].name, FragmentsOf(ds[k + 1..], index)))
            && (NeverStarted(ds, index) ==>
                  calls[place] == ToolCall("call_" + Decimal.Digits(index), "", FragmentsOf(ds, index)))
  {
    hide CallFor, FragmentsOf, LastStart, NeverStarted;
    CallsAreMentioned(ds);
    MentionedIff(ds, index);
    ListingOrdered(CallsOf(ds), index);
    if LastStart(ds, index, k) { StartedCall(ds, index, k); }
    if NeverStarted(ds, index) { UnstartedCall(ds, index); }
    hide Below, Listing, Indices;
  }
}
