/** The messages shown for a history: subagent entries grouped by agent, and one message for each entry of
    the main chain that is not a bare tool result, with what its tool calls returned. */
module Messages {
  import opened Wrappers
  import opened Sequences
  import opened Chain

  datatype Role = UserRole | AssistantRole

  datatype SubagentMessage = SubagentMessage(id: string, text: string, tools: seq<Block>)

  datatype Trace = Trace(agentType: string, description: string, summary: string, totalTokens: Option<nat>,
                         messages: seq<SubagentMessage>)

  // A tool call with the subagent it ran and the text it returned, where known.
  datatype ToolCall = ToolCall(id: string, name: string, input: string, trace: Option<Trace>, result: Option<string>)

  datatype Message = Message(id: string, role: Role, text: string, calls: seq<ToolCall>, thinking: seq<string>,
                             answered: seq<Outcome>, isCompactSummary: bool)

  predicate IsConversation(e: Entry) { e.kind.User? || e.kind.Assistant? }

  predicate IsCandidate(e: Entry) { IsConversation(e) && !e.isSidechain }

  predicate IsSubagentEntry(e: Entry, agent: string) {
    e.kind.Assistant? && e.isSidechain && e.agentId == agent && agent != ""
  }

  function Agents(entries: seq<Entry>): set<string> {
    set e | e in entries && IsSubagentEntry(e, e.agentId) :: e.agentId
  }

  function Group(entries: seq<Entry>, agent: string): seq<Entry> {
    Filter(entries, e => IsSubagentEntry(e, agent))
  }

  lemma GroupPush(entries: seq<Entry>, e: Entry, agent: string)
    ensures Group(entries + [e], agent) == Group(entries, agent) + if IsSubagentEntry(e, agent) then [e] else []
  {
    FilterPush(entries, e, e => IsSubagentEntry(e, agent));
  }

  // For every agent named by a sidechain assistant entry, exactly those entries, in input order.
  ghost predicate Grouped(groups: map<string, seq<Entry>>, entries: seq<Entry>) {
    && groups.Keys == Agents(entries)
    && forall agent <- groups :: groups[agent] == Group(entries, agent) != []
  }

  lemma AgentsPush(entries: seq<Entry>, e: Entry)
    ensures Agents(entries + [e]) == Agents(entries) + if IsSubagentEntry(e, e.agentId) then {e.agentId} else {}
  {
    forall a | a in Agents(entries + [e])
      ensures a in Agents(entries) || (IsSubagentEntry(e, e.agentId) && a == e.agentId)
    {
      var x :| x in entries + [e] && IsSubagentEntry(x, x.agentId) && x.agentId == a;
      assert x in entries || x == e;
    }
    forall a | a in Agents(entries) ensures a in Agents(entries + [e]) {
      var x :| x in entries && IsSubagentEntry(x, x.agentId) && x.agentId == a;
      assert x in entries + [e];
    }
    assert e in entries + [e];
  }

  lemma GroupedUntouched(groups: map<string, seq<Entry>>, entries: seq<Entry>, e: Entry)
    requires Grouped(groups, entries) && !IsSubagentEntry(e, e.agentId)
    ensures Grouped(groups, entries + [e])
  {
    AgentsPush(entries, e);
    forall agent | agent in groups ensures groups[agent] == Group(entries + [e], agent) {
      GroupPush(entries, e, agent);
    }
  }

  lemma GroupedPush(groups: map<string, seq<Entry>>, entries: seq<Entry>, e: Entry)
    requires Grouped(groups, entries) && IsSubagentEntry(e, e.agentId)
    ensures Grouped(groups[e.agentId := (if e.agentId in groups then groups[e.agentId] else []) + [e]], entries + [e])
  {
    AgentsPush(entries, e);
    NoGroup(entries, e.agentId);
    GroupPush(entries, e, e.agentId);
    forall agent | agent in groups && agent != e.agentId ensures groups[agent] == Group(entries + [e], agent) {
      GroupPush(entries, e, agent);
    }
  }

  // One sidechain assistant entry with an agent goes to the end of its group.
  method AddToGroup(groups: map<string, seq<Entry>>, ghost done: seq<Entry>, e: Entry)
    returns (groups': map<string, seq<Entry>>)
    requires Grouped(groups, done) && e.kind.Assistant? && e.isSidechain
    ensures Grouped(groups', done + [e])
  {
    var agent := e.agentId;
    groups' := groups;
    if agent != "" {
      GroupedPush(groups, done, e);
      if agent in groups {
        groups' := groups[agent := groups[agent] + [e]];
      } else {
        assert [] + [e] == [e];
        groups' := groups[agent := [e]];
      }
    } else {
      GroupedUntouched(groups, done, e);
    }
  }

  // Splits the input into the candidates for the main chain and the Map of sidechain groups.
  method Separate(entries: seq<Entry>) returns (candidates: seq<Entry>, groups: map<string, seq<Entry>>)
    ensures candidates == Filter(entries, IsCandidate)
    ensures Grouped(groups, entries)
  {
    candidates, groups := [], map[];
    for i := 0 to |entries|
      invariant candidates == Filter(entries[..i], IsCandidate)
      invariant Grouped(groups, entries[..i])
    {
      var e := entries[i];
      assert entries[..i + 1] == entries[..i] + [e];
      FilterPush(entries[..i], e, IsCandidate);
      if e.kind.Assistant? && e.isSidechain {
        groups := AddToGroup(groups, entries[..i], e);
      } else {
        GroupedUntouched(groups, entries[..i], e);
        if IsConversation(e) && !e.isSidechain { candidates := candidates + [e]; }
      }
    }
    assert entries[..|entries|] == entries;
  }

  lemma NoGroup(entries: seq<Entry>, agent: string)
    ensures agent !in Agents(entries) ==> Group(entries, agent) == []
  {
    var g := Group(entries, agent);
    if g != [] {
      assert g[0] in g && IsSubagentEntry(g[0], g[0].agentId);
      assert g[0].agentId in Agents(entries);
    }
  }

  // Nothing is lost or doubled: an entry lies in the group of its own agent, once for each time it was
  // in the input, and in no other.
  lemma {:induction false} GroupsPartition(entries: seq<Entry>, e: Entry, agent: string)
    ensures multiset(Group(entries, agent))[e] == if IsSubagentEntry(e, agent) then multiset(entries)[e] else 0
  {
    if entries == [] {
    } else {
      var init, last := entries[..|entries| - 1], entries[|entries| - 1];
      GroupsPartition(init, e, agent);
      GroupPush(init, last, agent);
      assert entries == init + [last];
    }
  }

  /* ---- what user entries answer ---- */

  // One tool result of a user entry, with what the entry says of it.
  datatype Answer = Answer(toolUseId: string, text: string, outcome: Option<Outcome>)

  function BlockAnswers(blocks: seq<Block>, outcome: Option<Outcome>): seq<Answer> {
    if blocks == [] then []
    else
      var b := blocks[|blocks| - 1];
      BlockAnswers(blocks[..|blocks| - 1], outcome)
      + if b.ToolResult? && b.toolUseId != "" then [Answer(b.toolUseId, b.text, outcome)] else []
  }

  function Answers(chain: seq<Entry>): seq<Answer> {
    if chain == [] then []
    else
      var e := chain[|chain| - 1];
      Answers(chain[..|chain| - 1])
      + if e.kind.User? && e.content.Blocks? then BlockAnswers(e.content.blocks, e.outcome) else []
  }

  predicate FromAgent(a: Answer) { a.outcome.Some? && a.outcome.value.agentId != "" }

  predicate ToQuestions(a: Answer) { a.outcome.Some? && a.outcome.value.questions != [] }

  predicate HasText(a: Answer) { !FromAgent(a) && !ToQuestions(a) && a.text != "" }

  // The answer to one tool call that a Map filled in chain order ends up with.
  function LastAnswer(answers: seq<Answer>, keep: Answer -> bool, id: string): Option<Answer> {
    if answers == [] then None
    else
      var a := answers[|answers| - 1];
      if a.toolUseId == id && keep(a) then Some(a) else LastAnswer(answers[..|answers| - 1], keep, id)
  }

  // The Map holds for each tool call the value of its last answer.
  ghost predicate Indexes<T(!new)>(m: map<string, T>, answers: seq<Answer>, keep: Answer -> bool, value: Answer -> T) {
    forall id ::
      var a := LastAnswer(answers, keep, id);
      (id in m <==> a.Some?) && (id in m ==> m[id] == value(a.value))
  }

  // The tool results of one user entry; before are the answers of the entries before it.
  method IndexEntry<T(!new)>(ghost before: seq<Answer>, m: map<string, T>, blocks: seq<Block>, outcome: Option<Outcome>,
                             keep: Answer -> bool, value: Answer -> T)
    returns (m': map<string, T>)
    requires Indexes(m, before, keep, value)
    ensures Indexes(m', before + BlockAnswers(blocks, outcome), keep, value)
  {
    m' := m;
    assert before + BlockAnswers(blocks[..0], outcome) == before;
    for j := 0 to |blocks|
      invariant Indexes(m', before + BlockAnswers(blocks[..j], outcome), keep, value)
    {
      var b := blocks[j];
      ghost var done := before + BlockAnswers(blocks[..j], outcome);
      assert blocks[..j + 1][..j] == blocks[..j];
      if b.ToolResult? && b.toolUseId != "" {
        var a := Answer(b.toolUseId, b.text, outcome);
        assert before + BlockAnswers(blocks[..j + 1], outcome) == done + [a];
        if keep(a) { m' := m'[a.toolUseId := value(a)]; }
      } else {
        assert before + BlockAnswers(blocks[..j + 1], outcome) == done;
      }
    }
    assert blocks[..|blocks|] == blocks;
  }

  // The three passes over the main chain that fill the Maps by tool call.
  method Index<T(!new)>(chain: seq<Entry>, keep: Answer -> bool, value: Answer -> T) returns (m: map<string, T>)
    ensures Indexes(m, Answers(chain), keep, value)
  {
    m := map[];
    for i := 0 to |chain|
      invariant Indexes(m, Answers(chain[..i]), keep, value)
    {
      assert chain[..i + 1][..i] == chain[..i];
      if chain[i].kind.User? && chain[i].content.Blocks? {
        m := IndexEntry(Answers(chain[..i]), m, chain[i].content.blocks, chain[i].outcome, keep, value);
      } else {
        assert Answers(chain[..i + 1]) == Answers(chain[..i]);
      }
    }
    assert chain[..|chain|] == chain;
  }

  /* ---- what is shown of a tool call ---- */

  function Texts(blocks: seq<Block>): string {
    if blocks == [] then ""
    else
      var b := blocks[|blocks| - 1];
      Texts(blocks[..|blocks| - 1]) + if b.TextBlock? then b.text else ""
  }

  function Tools(blocks: seq<Block>): seq<Block> { Filter(blocks, (b: Block) => b.ToolUse?) }

  function ContentBlocks(e: Entry): seq<Block> {
    if e.content.Blocks? then e.content.blocks else []
  }

  function SubagentMessages(entries: seq<Entry>): seq<SubagentMessage> {
    seq(|entries|, i requires 0 <= i < |entries| =>
          SubagentMessage(entries[i].uuid, Texts(ContentBlocks(entries[i])), Tools(ContentBlocks(entries[i]))))
  }

  // The description of an agent type is that of its last metadata entry.
  function Description(entries: seq<Entry>, agentType: string): string {
    if entries == [] then ""
    else
      var k := entries[|entries| - 1].kind;
      if k.AgentMetadata? && k.agentType == agentType then k.description
      else Description(entries[..|entries| - 1], agentType)
  }

  method Descriptions(entries: seq<Entry>) returns (byType: map<string, string>)
    ensures forall t :: Description(entries, t) == if t in byType then byType[t] else ""
  {
    byType := map[];
    for i := 0 to |entries|
      invariant forall t :: Description(entries[..i], t) == if t in byType then byType[t] else ""
    {
      assert entries[..i + 1][..i] == entries[..i];
      var k := entries[i].kind;
      if k.AgentMetadata? { byType := byType[k.agentType := k.description]; }
    }
    assert entries[..|entries|] == entries;
  }

  // All that is known of a tool call: the subagent it ran, the questions it put, the text it returned.
  datatype Lookup = Lookup(trace: map<string, Trace>, questions: map<string, Outcome>, text: map<string, string>)

  // The trace of an answer shows every entry of the agent it names.
  function TraceOf(entries: seq<Entry>, a: Answer): Trace {
    if a.outcome.None? then Trace("", "", "", None, [])
    else
      var o := a.outcome.value;
      Trace(o.agentType, Description(entries, o.agentType), o.summary, o.totalTokens,
            SubagentMessages(Group(entries, o.agentId)))
  }

  function OutcomeOf(a: Answer): Outcome {
    if a.outcome.Some? then a.outcome.value else Outcome("", "", "", None, [], map[])
  }

  // Each tool call is shown with its last answer of each sort on the main chain.
  ghost predicate Answered(look: Lookup, entries: seq<Entry>, chain: seq<Entry>) {
    && Indexes(look.trace, Answers(chain), FromAgent, a => TraceOf(entries, a))
    && Indexes(look.questions, Answers(chain), ToQuestions, OutcomeOf)
    && Indexes(look.text, Answers(chain), HasText, (a: Answer) => a.text)
  }

  // Values that agree on every answer of the given sort fill the same Map.
  lemma IndexesSame<T(!new)>(m: map<string, T>, answers: seq<Answer>, keep: Answer -> bool, v: Answer -> T,
                             w: Answer -> T)
    requires Indexes(m, answers, keep, v) && forall a :: keep(a) ==> v(a) == w(a)
    ensures Indexes(m, answers, keep, w)
  {
    forall id
      ensures var a := LastAnswer(answers, keep, id); (id in m <==> a.Some?) && (id in m ==> m[id] == w(a.value))
    {
      LastIsKept(answers, keep, id);
    }
  }

  lemma {:induction false} LastIsKept(answers: seq<Answer>, keep: Answer -> bool, id: string)
    ensures var a := LastAnswer(answers, keep, id);
            a.Some? ==> a.value in answers && keep(a.value) && a.value.toolUseId == id
    ensures LastAnswer(answers, keep, id).None? ==> forall a <- answers :: !(keep(a) && a.toolUseId == id)
  {
    if answers != [] {
      LastIsKept(answers[..|answers| - 1], keep, id);
      assert forall a <- answers :: a in answers[..|answers| - 1] || a == answers[|answers| - 1];
    }
  }

  method LookUp(entries: seq<Entry>, groups: map<string, seq<Entry>>, chain: seq<Entry>) returns (look: Lookup)
    requires Grouped(groups, entries)
    ensures Answered(look, entries, chain)
  {
    var byType := Descriptions(entries);
    var value := (a: Answer) =>
      if a.outcome.None? then Trace("", "", "", None, [])
      else
        var o := a.outcome.value;
        Trace(o.agentType, if o.agentType in byType then byType[o.agentType] else "", o.summary, o.totalTokens,
              SubagentMessages(if o.agentId in groups then groups[o.agentId] else []));
    var traces := Index(chain, FromAgent, value);
    forall a ensures value(a) == TraceOf(entries, a) {
      if a.outcome.Some? { NoGroup(entries, a.outcome.value.agentId); }
    }
    IndexesSame(traces, Answers(chain), FromAgent, value, a => TraceOf(entries, a));
    var questions := Index(chain, ToQuestions, OutcomeOf);
    var texts := Index(chain, HasText, (a: Answer) => a.text);
    look := Lookup(traces, questions, texts);
  }

  // A bare tool result: content blocks with a tool_result and no text.
  predicate IsToolResultOnly(e: Entry) {
    && e.content.Blocks?
    && (exists b :: b in e.content.blocks && b.ToolResult?)
    && (forall b :: b in e.content.blocks ==> !b.TextBlock?)
  }

  predicate IsShown(e: Entry) { !(e.kind.User? && IsToolResultOnly(e)) }

  function ShownCall(b: Block, look: Lookup): ToolCall
    requires b.ToolUse?
  {
    ToolCall(b.id, b.name, b.input,
             if b.name == "Agent" && b.id in look.trace then Some(look.trace[b.id]) else None,
             if b.id in look.text then Some(look.text[b.id]) else None)
  }

  predicate IsAnsweredQuestion(b: Block, look: Lookup) {
    b.ToolUse? && b.name == "AskUserQuestion" && b.id in look.questions
  }

  function ThoughtBlocks(blocks: seq<Block>): seq<Block> { Filter(blocks, (b: Block) => b.Thinking?) }

  function AskedBlocks(blocks: seq<Block>, look: Lookup): seq<Block> {
    Filter(blocks, b => IsAnsweredQuestion(b, look))
  }

  function ShownCalls(tools: seq<Block>, look: Lookup): seq<ToolCall>
    requires forall b <- tools :: b.ToolUse?
  {
    seq(|tools|, i requires 0 <= i < |tools| => assert tools[i] in tools; ShownCall(tools[i], look))
  }

  function Thoughts(blocks: seq<Block>): seq<string>
    requires forall b <- blocks :: b.Thinking?
  {
    seq(|blocks|, i requires 0 <= i < |blocks| => assert blocks[i] in blocks; blocks[i].text)
  }

  function ShownQuestions(asked: seq<Block>, look: Lookup): seq<Outcome>
    requires forall b <- asked :: IsAnsweredQuestion(b, look)
  {
    seq(|asked|, i requires 0 <= i < |asked| => assert IsAnsweredQuestion(asked[i], look); look.questions[asked[i].id])
  }

  function EntryMessage(e: Entry, look: Lookup): Message {
    if e.kind.User? then
      Message(e.uuid, UserRole, if e.content.Plain? then e.content.text else Texts(e.content.blocks), [], [], [], false)
    else
      var blocks := ContentBlocks(e);
      Message(e.uuid, AssistantRole, Texts(blocks), ShownCalls(Tools(blocks), look),
              Thoughts(ThoughtBlocks(blocks)), ShownQuestions(AskedBlocks(blocks, look), look), e.isCompactSummary)
  }

  // The messages of the shown chain entries; their ids are the uuids of those entries, in chain order.
  function ToMessages(chain: seq<Entry>, look: Lookup): (r: seq<Message>)
    ensures |r| == |Filter(chain, IsShown)|
    ensures forall i :: 0 <= i < |r| ==> r[i].id == Filter(chain, IsShown)[i].uuid
  {
    var shown := Filter(chain, IsShown);
    seq(|shown|, i requires 0 <= i < |shown| => EntryMessage(shown[i], look))
  }

  lemma ToMessagesAppend(a: seq<Entry>, b: seq<Entry>, look: Lookup)
    ensures ToMessages(a + b, look) == ToMessages(a, look) + ToMessages(b, look)
  {
    FilterAppend(a, b, IsShown);
  }

  lemma OneMessage(e: Entry, look: Lookup)
    ensures ToMessages([e], look) == if IsShown(e) then [EntryMessage(e, look)] else []
  {
    assert [e][..0] == [];
    assert Filter([e], IsShown) == Filter([e][..0], IsShown) + if IsShown(e) then [e] else [];
  }

  // Wherever the chain is cut, the messages of the parts follow each other, and an entry gives its own message,
  // or none if it is a bare tool result: nothing is lost, doubled, moved or mixed.
  lemma MessagesFollowChain(a: seq<Entry>, e: Entry, b: seq<Entry>, look: Lookup)
    ensures ToMessages(a + [e] + b, look) ==
              ToMessages(a, look) + (if IsShown(e) then [EntryMessage(e, look)] else []) + ToMessages(b, look)
  {
    ToMessagesAppend(a + [e], b, look);
    ToMessagesAppend(a, [e], look);
    OneMessage(e, look);
  }

  // For all entries there is one result, and this is it: the messages of the main walk, with all that is known
  // of its tool calls.
  method BuildMessages(entries: seq<Entry>)
    returns (messages: seq<Message>, ghost chain: seq<Entry>, ghost look: Lookup)
    requires WalkEnds(Filter(entries, IsCandidate))
    ensures IsMainWalk(Filter(entries, IsCandidate), chain) && Answered(look, entries, chain)
    ensures forall c, l :: IsMainWalk(Filter(entries, IsCandidate), c) && Answered(l, entries, c) ==>
              messages == ToMessages(c, l)
  {
    var candidates, groups := Separate(entries);
    var main := BuildMainChain(candidates);
    var known := LookUp(entries, groups, main);
    chain, look := main, known;
    messages := ToMessages(main, known);
    forall c, l | IsMainWalk(Filter(entries, IsCandidate), c) && Answered(l, entries, c)
      ensures messages == ToMessages(c, l)
    {
      MessagesUnique(entries, chain, c, look, l);
    }
  }

  // The messages are a function of the entries.
  lemma MessagesUnique(entries: seq<Entry>, c: seq<Entry>, d: seq<Entry>, look: Lookup, look': Lookup)
    requires IsMainWalk(Filter(entries, IsCandidate), c) && IsMainWalk(Filter(entries, IsCandidate), d)
    requires Answered(look, entries, c) && Answered(look', entries, d)
    ensures c == d && look == look' && ToMessages(c, look) == ToMessages(d, look')
  {
    MainWalkUnique(Filter(entries, IsCandidate), c, d);
  }

  // An Agent call shows a trace exactly when a tool result on the main chain names an agent for it, and
  // then all sidechain entries of the agent that the last such result names, in input order.
  lemma {:induction false} TraceShowsWholeGroup(entries: seq<Entry>, chain: seq<Entry>, look: Lookup, b: Block)
    requires Answered(look, entries, chain) && b.ToolUse? && b.name == "Agent"
    ensures var trace := ShownCall(b, look).trace;
            && (trace.Some? <==> exists a :: a in Answers(chain) && a.toolUseId == b.id && FromAgent(a))
            && (trace.Some? ==> exists a :: a in Answers(chain) && a.toolUseId == b.id && FromAgent(a)
                                  && Some(a) == LastAnswer(Answers(chain), FromAgent, b.id)
                                  && trace.value.messages == SubagentMessages(Group(entries, a.outcome.value.agentId)))
  {
    LastIsKept(Answers(chain), FromAgent, b.id);
    var a := LastAnswer(Answers(chain), FromAgent, b.id);
    assert b.id in look.trace <==> a.Some?;
    if a.Some? { assert look.trace[b.id] == TraceOf(entries, a.value); }
  }

  // The text shown for a tool call is that of an answer which names no agent and answers no questions.
  lemma {:induction false} TextIsPlainAnswer(entries: seq<Entry>, chain: seq<Entry>, look: Lookup, b: Block)
    requires Answered(look, entries, chain) && b.ToolUse? && ShownCall(b, look).result.Some?
    ensures exists a :: a in Answers(chain) && a.toolUseId == b.id && !FromAgent(a) && !ToQuestions(a)
                         && ShownCall(b, look).result == Some(a.text) && a.text != ""
  {
    LastIsKept(Answers(chain), HasText, b.id);
    var a := LastAnswer(Answers(chain), HasText, b.id);
    assert a.Some? && look.text[b.id] == a.value.text;
  }

  lemma ChainKeepsUnique(entries: seq<Entry>, chain: seq<Entry>)
    requires UniqueUuids(Eligible(entries)) && IsMainChain(entries, chain)
    ensures UniqueUuids(chain)
  {
    var es := Eligible(entries);
    if Leaves(es) != [] {
      MainWalkIsMainChain(entries, chain);
      WalkIsAncestorPath(es, Leaves(es)[|Leaves(es)| - 1], chain);
      forall i, j | 0 <= i < j < |chain| ensures chain[i].uuid != chain[j].uuid {
        assert chain[i] in chain && chain[j] in chain;
      }
    }
  }

  lemma {:induction false} FilterKeepsUnique(es: seq<Entry>, p: Entry -> bool)
    requires UniqueUuids(es)
    ensures UniqueUuids(Filter(es, p))
  {
    if es != [] {
      var init, last := es[..|es| - 1], es[|es| - 1];
      FilterKeepsUnique(init, p);
      var kept := Filter(init, p);
      forall i | 0 <= i < |kept| ensures kept[i].uuid != last.uuid {
        assert kept[i] in kept && kept[i] in init;
      }
      assert Filter(es, p) == kept + if p(last) then [last] else [];
    }
  }

  // With unique uuids no two messages share an id.
  lemma MessageIdsDistinct(entries: seq<Entry>, chain: seq<Entry>, look: Lookup, i: nat, j: nat)
    requires UniqueUuids(Eligible(entries)) && IsMainChain(entries, chain)
    requires i < j < |ToMessages(chain, look)|
    ensures ToMessages(chain, look)[i].id != ToMessages(chain, look)[j].id
  {
    ChainKeepsUnique(entries, chain);
    FilterKeepsUnique(chain, IsShown);
  }
}
