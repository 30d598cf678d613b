/** What stands in a message: block by block of its entry, and call by call of what the main chain answers. */
module MessageContents {
  import opened Wrappers
  import opened Sequences
  import opened Chain
  import opened Messages

  /* ---- which entries are shown, grouped, and candidates for the main chain ---- */

  // An entry is shown unless it is a user's whose blocks hold a tool result and no text.
  lemma ShownExactly(e: Entry)
    ensures !IsShown(e) <==>
              e.kind.User? && e.content.Blocks? && (exists b :: b in e.content.blocks && b.ToolResult?)
              && !exists b :: b in e.content.blocks && b.TextBlock?
  {
  }

  // Candidates are the user and assistant entries outside sidechains, each as often as it was there; groups hold
  // the assistant entries inside, by agent.
  lemma CandidatesAndGroups(entries: seq<Entry>, e: Entry, agent: string)
    ensures multiset(Filter(entries, IsCandidate))[e] ==
              if (e.kind.User? || e.kind.Assistant?) && !e.isSidechain then multiset(entries)[e] else 0
    ensures multiset(Group(entries, agent))[e] ==
              if e.kind.Assistant? && e.isSidechain && e.agentId == agent && agent != "" then multiset(entries)[e]
              else 0
  {
    FilterCount(entries, IsCandidate, e);
    GroupsPartition(entries, e, agent);
  }

  /* ---- texts and tool uses of blocks ---- */

  lemma {:induction false} TextsAppend(a: seq<Block>, b: seq<Block>)
    ensures Texts(a + b) == Texts(a) + Texts(b)
  {
    if b == [] {
      assert a + b == a;
    } else {
      var init, x := b[..|b| - 1], b[|b| - 1];
      TextsAppend(a, init);
      assert (a + b)[..|a + b| - 1] == a + init && (a + b)[|a + b| - 1] == x;
    }
  }

  lemma FilterAround<T>(a: seq<T>, x: T, c: seq<T>, p: T -> bool)
    ensures Filter(a + [x] + c, p) == Filter(a, p) + (if p(x) then [x] else []) + Filter(c, p)
  {
    FilterAppend(a + [x], c, p);
    FilterPush(a, x, p);
  }

  /* ---- a message, block by block ---- */

  function WithBlocks(e: Entry, blocks: seq<Block>): Entry { e.(content := Blocks(blocks)) }

  // Who speaks, and what of a message does not depend on blocks.
  lemma HeadOfMessage(e: Entry, look: Lookup)
    ensures var m := EntryMessage(e, look);
            && m.id == e.uuid && (m.role == UserRole <==> e.kind.User?) && m.role in {UserRole, AssistantRole}
            && m.isCompactSummary == (!e.kind.User? && e.isCompactSummary)
            && (e.kind.User? ==> m.calls == [] && m.thinking == [] && m.answered == [])
            && (e.kind.User? && e.content.Plain? ==> m.text == e.content.text)
            && (e.content == Blocks([]) ==> m.text == "" && m.calls == [] && m.thinking == [] && m.answered == [])
  {
  }

  // The text of blocks around a block is theirs, with the block's own text between.
  lemma TextOfMessage(e: Entry, a: seq<Block>, b: Block, c: seq<Block>, look: Lookup)
    ensures EntryMessage(WithBlocks(e, a + [b] + c), look).text ==
              EntryMessage(WithBlocks(e, a), look).text + (if b.TextBlock? then b.text else "")
              + EntryMessage(WithBlocks(e, c), look).text
  {
    TextsAppend(a + [b], c);
    TextsAppend(a, [b]);
  }

  lemma ToolsAround(a: seq<Block>, b: Block, c: seq<Block>)
    ensures Tools(a + [b] + c) == Tools(a) + (if b.ToolUse? then [b] else []) + Tools(c)
  {
    FilterAround(a, b, c, (b: Block) => b.ToolUse?);
  }

  lemma CallsAround(x: seq<Block>, y: seq<Block>, z: seq<Block>, look: Lookup)
    requires (forall b <- x :: b.ToolUse?) && (forall b <- y :: b.ToolUse?) && (forall b <- z :: b.ToolUse?)
    ensures forall b <- x + y + z :: b.ToolUse?
    ensures ShownCalls(x + y + z, look) == ShownCalls(x, look) + ShownCalls(y, look) + ShownCalls(z, look)
  {
  }

  lemma ThoughtsAround(x: seq<Block>, y: seq<Block>, z: seq<Block>)
    requires (forall b <- x :: b.Thinking?) && (forall b <- y :: b.Thinking?) && (forall b <- z :: b.Thinking?)
    ensures forall b <- x + y + z :: b.Thinking?
    ensures Thoughts(x + y + z) == Thoughts(x) + Thoughts(y) + Thoughts(z)
  {
  }

  // So are the calls, with one for a tool use between: its id, name and input, the trace for an Agent, and the
  // result of the text Map.
  lemma CallsOfMessage(e: Entry, a: seq<Block>, b: Block, c: seq<Block>, look: Lookup)
    requires !e.kind.User?
    ensures var trace := if b.ToolUse? && b.name == "Agent" && b.id in look.trace then Some(look.trace[b.id]) else None;
            var result := if b.ToolUse? && b.id in look.text then Some(look.text[b.id]) else None;
            EntryMessage(WithBlocks(e, a + [b] + c), look).calls ==
              EntryMessage(WithBlocks(e, a), look).calls
              + (if b.ToolUse? then [ToolCall(b.id, b.name, b.input, trace, result)] else [])
              + EntryMessage(WithBlocks(e, c), look).calls
  {
    var one := if b.ToolUse? then [b] else [];
    ToolsAround(a, b, c);
    CallsAround(Tools(a), one, Tools(c), look);
    assert ShownCalls(one, look) == if b.ToolUse? then [ShownCall(b, look)] else [];
  }

  lemma AskedAround(a: seq<Block>, b: Block, c: seq<Block>, look: Lookup)
    ensures AskedBlocks(a + [b] + c, look) ==
              AskedBlocks(a, look) + (if IsAnsweredQuestion(b, look) then [b] else []) + AskedBlocks(c, look)
  {
    FilterAround(a, b, c, b => IsAnsweredQuestion(b, look));
  }

  // So are the thoughts, and the questions put and answered.
  lemma ThoughtsOfMessage(e: Entry, a: seq<Block>, b: Block, c: seq<Block>, look: Lookup)
    requires !e.kind.User?
    ensures EntryMessage(WithBlocks(e, a + [b] + c), look).thinking ==
              EntryMessage(WithBlocks(e, a), look).thinking + (if b.Thinking? then [b.text] else [])
              + EntryMessage(WithBlocks(e, c), look).thinking
  {
    var one := if b.Thinking? then [b] else [];
    FilterAround(a, b, c, (b: Block) => b.Thinking?);
    assert ThoughtBlocks(a + [b] + c) == ThoughtBlocks(a) + one + ThoughtBlocks(c);
    ThoughtsAround(ThoughtBlocks(a), one, ThoughtBlocks(c));
    assert Thoughts(one) == if b.Thinking? then [b.text] else [];
  }

  lemma QuestionsOfMessage(e: Entry, a: seq<Block>, b: Block, c: seq<Block>, look: Lookup)
    requires !e.kind.User?
    ensures var asked := b.ToolUse? && b.name == "AskUserQuestion" && b.id in look.questions;
            EntryMessage(WithBlocks(e, a + [b] + c), look).answered ==
              EntryMessage(WithBlocks(e, a), look).answered + (if asked then [look.questions[b.id]] else [])
              + EntryMessage(WithBlocks(e, c), look).answered
  {
    var one := if IsAnsweredQuestion(b, look) then [b] else [];
    AskedAround(a, b, c, look);
    assert ShownQuestions(one, look) == if IsAnsweredQuestion(b, look) then [look.questions[b.id]] else [];
  }

  /* ---- the answers on the main chain ---- */

  lemma {:induction false} AnswersAppend(a: seq<Entry>, b: seq<Entry>)
    ensures Answers(a + b) == Answers(a) + Answers(b)
  {
    if b == [] {
      assert a + b == a;
    } else {
      var init, e := b[..|b| - 1], b[|b| - 1];
      AnswersAppend(a, init);
      assert (a + b)[..|a + b| - 1] == a + init && (a + b)[|a + b| - 1] == e;
    }
  }

  lemma {:induction false} BlockAnswersAppend(a: seq<Block>, b: seq<Block>, outcome: Option<Outcome>)
    ensures BlockAnswers(a + b, outcome) == BlockAnswers(a, outcome) + BlockAnswers(b, outcome)
  {
    if b == [] {
      assert a + b == a;
    } else {
      var init, x := b[..|b| - 1], b[|b| - 1];
      BlockAnswersAppend(a, init, outcome);
      assert (a + b)[..|a + b| - 1] == a + init && (a + b)[|a + b| - 1] == x;
    }
  }

  // In chain order, every tool result with an id in the blocks of a user entry, with what the entry says of it.
  lemma AnswersInOrder(chain: seq<Entry>, e: Entry, rest: seq<Entry>, a: seq<Block>, b: Block, c: seq<Block>)
    requires e.content == Blocks(a + [b] + c)
    ensures Answers(chain + [e] + rest) == Answers(chain) + Answers([e]) + Answers(rest)
    ensures Answers([e]) == if !e.kind.User? then [] else
              BlockAnswers(a, e.outcome)
              + (if b.ToolResult? && b.toolUseId != "" then [Answer(b.toolUseId, b.text, e.outcome)] else [])
              + BlockAnswers(c, e.outcome)
  {
    AnswersAppend(chain + [e], rest);
    AnswersAppend(chain, [e]);
    assert [e][..0] == [];
    assert Answers([e]) == Answers([e][..0]) + if e.kind.User? then BlockAnswers(a + [b] + c, e.outcome) else [];
    BlockAnswersAppend(a + [b], c, e.outcome);
    BlockAnswersAppend(a, [b], e.outcome);
  }

  // Answer k is the one that counts: it is kept, for the call, and none after it is.
  predicate Decides(answers: seq<Answer>, keep: Answer -> bool, id: string, k: nat) {
    && k < |answers| && answers[k].toolUseId == id && keep(answers[k])
    && forall j :: k < j < |answers| ==> !(answers[j].toolUseId == id && keep(answers[j]))
  }

  lemma {:induction false} LastDecides(answers: seq<Answer>, keep: Answer -> bool, id: string)
    ensures forall k: nat :: Decides(answers, keep, id, k) ==> LastAnswer(answers, keep, id) == Some(answers[k])
    ensures (forall k: nat :: !Decides(answers, keep, id, k)) ==> LastAnswer(answers, keep, id) == None
  {
    if answers != [] {
      var init, last := answers[..|answers| - 1], answers[|answers| - 1];
      LastDecides(init, keep, id);
      if last.toolUseId == id && keep(last) {
        assert Decides(answers, keep, id, |init|);
      }
      forall k: nat | k < |init|
        ensures Decides(answers, keep, id, k) <==> Decides(init, keep, id, k) && !(last.toolUseId == id && keep(last))
      {
        assert forall j :: k < j < |init| ==> answers[j] == init[j];
        assert answers[|init|] == last;
      }
    }
  }

  /* ---- the calls of the messages shown ---- */

  lemma {:induction false} CallIsToolUse(chain: seq<Entry>, look: Lookup, i: nat, j: nat) returns (b: Block)
    requires i < |ToMessages(chain, look)| && j < |ToMessages(chain, look)[i].calls|
    ensures var call := ToMessages(chain, look)[i].calls[j];
            && b.ToolUse? && call.id == b.id && call.name == b.name && call.input == b.input
            && call.trace == (if b.name == "Agent" && b.id in look.trace then Some(look.trace[b.id]) else None)
            && call.result == (if b.id in look.text then Some(look.text[b.id]) else None)
  {
    var e := Filter(chain, IsShown)[i];
    var tools := Tools(ContentBlocks(e));
    b := tools[j];
    assert b in tools;
  }

  // The trace of a call in a message: there if and only if the call is an Agent's and some answer to it names an
  // agent; and then what the last such answer says, and all messages of that agent, in order.
  lemma {:induction false} TracesShown(entries: seq<Entry>, chain: seq<Entry>, look: Lookup, i: nat, j: nat)
    requires Answered(look, entries, chain)
    requires i < |ToMessages(chain, look)| && j < |ToMessages(chain, look)[i].calls|
    ensures var call := ToMessages(chain, look)[i].calls[j];
            var named := (a: Answer) => a.outcome.Some? && a.outcome.value.agentId != "";
            && (forall k: nat :: Decides(Answers(chain), named, call.id, k) && call.name == "Agent" ==>
                  var o := Answers(chain)[k].outcome.value;
                  call.trace == Some(Trace(o.agentType, Description(entries, o.agentType), o.summary, o.totalTokens,
                                           SubagentMessages(Group(entries, o.agentId)))))
            && (call.name != "Agent" || (forall k: nat :: !Decides(Answers(chain), named, call.id, k)) ==>
                  call.trace == None)
  {
    var b := CallIsToolUse(chain, look, i, j);
    var named := (a: Answer) => a.outcome.Some? && a.outcome.value.agentId != "";
    LastDecides(Answers(chain), named, b.id);
    SameLast(Answers(chain), named, FromAgent, b.id);
    var a := LastAnswer(Answers(chain), FromAgent, b.id);
    assert b.id in look.trace <==> a.Some?;
    if a.Some? { assert look.trace[b.id] == TraceOf(entries, a.value); }
  }

  lemma {:induction false} SameLast(answers: seq<Answer>, p: Answer -> bool, q: Answer -> bool, id: string)
    requires forall a :: p(a) == q(a)
    ensures LastAnswer(answers, p, id) == LastAnswer(answers, q, id)
  {
    if answers != [] { SameLast(answers[..|answers| - 1], p, q, id); }
  }

  // The text of a call: that of the last answer to it that names no agent, answers no questions and is not empty.
  lemma {:induction false} ResultsShown(entries: seq<Entry>, chain: seq<Entry>, look: Lookup, i: nat, j: nat)
    requires Answered(look, entries, chain)
    requires i < |ToMessages(chain, look)| && j < |ToMessages(chain, look)[i].calls|
    ensures var call := ToMessages(chain, look)[i].calls[j];
            var plain := (a: Answer) =>
              a.text != "" && (a.outcome.Some? ==> a.outcome.value.agentId == "" && a.outcome.value.questions == []);
            && (forall k: nat :: Decides(Answers(chain), plain, call.id, k) ==>
                  call.result == Some(Answers(chain)[k].text))
            && ((forall k: nat :: !Decides(Answers(chain), plain, call.id, k)) ==> call.result == None)
  {
    var b := CallIsToolUse(chain, look, i, j);
    var plain := (a: Answer) =>
      a.text != "" && (a.outcome.Some? ==> a.outcome.value.agentId == "" && a.outcome.value.questions == []);
    LastDecides(Answers(chain), plain, b.id);
    SameLast(Answers(chain), plain, HasText, b.id);
    var a := LastAnswer(Answers(chain), HasText, b.id);
    assert b.id in look.text <==> a.Some?;
  }

  // The questions Map holds for each tool call what the last answer with questions says.
  lemma {:induction false} QuestionsKnown(entries: seq<Entry>, chain: seq<Entry>, look: Lookup, id: string)
    requires Answered(look, entries, chain)
    ensures var asked := (a: Answer) => a.outcome.Some? && a.outcome.value.questions != [];
            && (forall k: nat :: Decides(Answers(chain), asked, id, k) ==>
                  id in look.questions && look.questions[id] == Answers(chain)[k].outcome.value)
            && ((forall k: nat :: !Decides(Answers(chain), asked, id, k)) ==> id !in look.questions)
  {
    var asked := (a: Answer) => a.outcome.Some? && a.outcome.value.questions != [];
    LastDecides(Answers(chain), asked, id);
    SameLast(Answers(chain), asked, ToQuestions, id);
    assert id in look.questions <==> LastAnswer(Answers(chain), ToQuestions, id).Some?;
  }

  // The messages of a subagent: one for each of its entries, with its text and its tool uses.
  lemma SubagentMessagesAre(entries: seq<Entry>, i: nat)
    requires i < |entries|
    ensures |SubagentMessages(entries)| == |entries| && SubagentMessages(entries)[i].id == entries[i].uuid
    ensures entries[i].content.Blocks? ==>
              && SubagentMessages(entries)[i].text == Texts(entries[i].content.blocks)
              && (forall b :: b in SubagentMessages(entries)[i].tools <==> b in entries[i].content.blocks && b.ToolUse?)
  {
  }

  // Descriptions come from metadata entries of the type, the last one of them.
  lemma {:induction false} DescriptionIs(entries: seq<Entry>, t: string, i: nat)
    requires i < |entries| && entries[i].kind.AgentMetadata? && entries[i].kind.agentType == t
    requires forall j :: i < j < |entries| && entries[j].kind.AgentMetadata? ==> entries[j].kind.agentType != t
    ensures Description(entries, t) == entries[i].kind.description
  {
    if i < |entries| - 1 {
      var init := entries[..|entries| - 1];
      assert init[i] == entries[i] && forall j :: i < j < |init| ==> init[j] == entries[j];
      DescriptionIs(init, t, i);
    }
  }
}
