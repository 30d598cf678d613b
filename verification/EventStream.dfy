/** The server-sent event stream of a message: the line relay of the backend and the incremental parser of the
    browser. JSON is a function from text to an optional value. */
module EventStream {
  import opened Wrappers
  import opened Lines
  import opened Sequences
  import opened Trimming
  import Ops = TaskOps

  const SESSION_INIT := "session.init"

  /* ---- the browser's parser ---- */

  datatype Event<J> = Event(name: string, data: J)

  // thrown: a data line was not JSON, and the generator ended there.
  datatype Parser<J> = Parser(events: seq<Event<J>>, current: string, thrown: bool)

  function ParseLine<J>(p: Parser<J>, line: string, json: string -> Option<J>): Parser<J> {
    if p.thrown then p
    else if "event:" <= line then p.(current := TrimJs(line[6..]))
    else if "data:" <= line then
      match json(TrimJs(line[5..]))
      case None => p.(thrown := true)
      case Some(d) => Parser(p.events + [Event(p.current, d)], "", false)
    else p
  }

  function ParseLines<J>(lines: seq<string>, json: string -> Option<J>): Parser<J> {
    if lines == [] then Parser([], "", false)
    else ParseLine(ParseLines(lines[..|lines| - 1], json), lines[|lines| - 1], json)
  }

  function Concat(chunks: seq<string>): string {
    if chunks == [] then "" else Concat(chunks[..|chunks| - 1]) + chunks[|chunks| - 1]
  }

  lemma {:induction false} ThrownStays<J>(lines: seq<string>, more: seq<string>, json: string -> Option<J>)
    requires ParseLines(lines, json).thrown
    ensures ParseLines(lines + more, json) == ParseLines(lines, json)
  {
    if more == [] {
      assert lines + more == lines;
    } else {
      assert (lines + more)[..|lines + more| - 1] == lines + more[..|more| - 1];
      ThrownStays(lines, more[..|more| - 1], json);
    }
  }

  // The lines of one chunk; before are those already parsed.
  method ParseCut<J>(ghost before: seq<string>, lines: seq<string>, json: string -> Option<J>,
                     events: seq<Event<J>>, current: string)
    returns (events': seq<Event<J>>, current': string, thrown: bool)
    requires ParseLines(before, json) == Parser(events, current, false)
    ensures ParseLines(before + lines, json) == Parser(events', current', thrown)
  {
    events', current', thrown := events, current, false;
    assert before + lines[..0] == before;
    for j := 0 to |lines|
      invariant ParseLines(before + lines[..j], json) == Parser(events', current', false)
    {
      var line := lines[j];
      TakeMore(before, lines, j);
      if "event:" <= line {
        current' := TrimJs(line[6..]);
      } else if "data:" <= line {
        var data := json(TrimJs(line[5..]));
        if data.None? {
          ThrownStays(before + lines[..j + 1], lines[j + 1..], json);
          thrown := true;
          return;
        }
        events', current' := events' + [Event(current', data.value)], "";
      }
    }
    assert before + lines[..|lines|] == before + lines;
  }

  lemma SplitChunk(chunks: seq<string>, i: nat)
    requires i < |chunks|
    ensures var c := Split(Concat(chunks[..i]));
            var d := Split(c.rest + chunks[i]);
            Split(Concat(chunks[..i + 1])) == Cut(c.lines + d.lines, d.rest)
  {
    assert chunks[..i + 1][..i] == chunks[..i];
    SplitAppend(Concat(chunks[..i]), chunks[i]);
  }

  // Whatever the chunks, the events are those of the whole text, and the buffer is what follows its
  // last newline.
  method ParseSSE<J>(chunks: seq<string>, json: string -> Option<J>)
    returns (events: seq<Event<J>>, buffer: string, thrown: bool)
    ensures var text := Split(Concat(chunks));
            && events == ParseLines(text.lines, json).events
            && thrown == ParseLines(text.lines, json).thrown
            && (!thrown ==> buffer == text.rest)
  {
    events, buffer, thrown := [], "", false;
    var currentEvent := "";
    for i := 0 to |chunks|
      invariant Split(Concat(chunks[..i])).rest == buffer
      invariant ParseLines(Split(Concat(chunks[..i])).lines, json) == Parser(events, currentEvent, false)
    {
      SplitChunk(chunks, i);
      var cut := Split(buffer + chunks[i]);
      buffer := cut.rest;
      events, currentEvent, thrown :=
        ParseCut(Split(Concat(chunks[..i])).lines, cut.lines, json, events, currentEvent);
      if thrown {
        ThrownForGood(chunks, i + 1, json);
        return;
      }
    }
    assert chunks[..|chunks|] == chunks;
  }

  lemma {:induction false} ThrownForGood<J>(chunks: seq<string>, i: nat, json: string -> Option<J>)
    requires i <= |chunks| && ParseLines(Split(Concat(chunks[..i])).lines, json).thrown
    ensures ParseLines(Split(Concat(chunks)).lines, json) == ParseLines(Split(Concat(chunks[..i])).lines, json)
    decreases |chunks| - i
  {
    if i == |chunks| {
      assert chunks[..i] == chunks;
    } else {
      var c := Split(Concat(chunks[..i]));
      SplitChunk(chunks, i);
      ThrownStays(c.lines, Split(c.rest + chunks[i]).lines, json);
      ThrownForGood(chunks, i + 1, json);
    }
  }

  /* ---- the backend's relay ---- */

  datatype Relay = Relay(out: string, current: string, ids: seq<string>)

  // The sessionId of a payload; "" when there is none or the text is not JSON.
  function SessionIdIn<J>(text: string, json: string -> Option<J>, sid: J -> string): string {
    match json(text)
    case None => ""
    case Some(d) => sid(d)
  }

  function RelayLine<J>(r: Relay, line: string, json: string -> Option<J>, sid: J -> string): Relay {
    if line == "" then Relay(r.out + "\n", "", r.ids)
    else if "event:" <= line then Relay(r.out + line + "\n", TrimGo(line[6..]), r.ids)
    else if "data:" <= line && r.current == SESSION_INIT then
      var id := SessionIdIn(TrimGo(line[5..]), json, sid);
      Relay(r.out + line + "\n", r.current, if id == "" then r.ids else r.ids + [id])
    else Relay(r.out + line + "\n", r.current, r.ids)
  }

  function RelayLines<J>(lines: seq<string>, json: string -> Option<J>, sid: J -> string): Relay {
    if lines == [] then Relay("", "", [])
    else RelayLine(RelayLines(lines[..|lines| - 1], json, sid), lines[|lines| - 1], json, sid)
  }

  // SetSessionId on the task, once for each recorded id.
  function RecordSessions(s: Ops.Snapshot, ids: seq<string>): Ops.Snapshot {
    if ids == [] then s
    else Ops.Step(RecordSessions(s, ids[..|ids| - 1]), Ops.SetSessionId(ids[|ids| - 1]))
  }

  // One scanned line: what it writes out, and the session id it may record on a task that was before.
  method RelayOne<J>(line: string, r: Relay, json: string -> Option<J>, sid: J -> string, ghost before: Ops.Snapshot,
                     t: Ops.Task)
    returns (r': Relay)
    requires t.Value() == RecordSessions(before, r.ids)
    modifies t
    ensures r' == RelayLine(r, line, json, sid)
    ensures t.Value() == RecordSessions(before, r'.ids)
  {
    if line == "" { return Relay(r.out + "\n", "", r.ids); }
    if "event:" <= line { return Relay(r.out + line + "\n", TrimGo(line[6..]), r.ids); }
    var ids := r.ids;
    if "data:" <= line && r.current == SESSION_INIT {
      var id := SessionIdIn(TrimGo(line[5..]), json, sid);
      if id != "" {
        t.SetSessionId(id);
        ids := ids + [id];
        assert ids[..|ids| - 1] == r.ids;
      }
    }
    r' := Relay(r.out + line + "\n", r.current, ids);
  }

  // How many of count lines are relayed: the loop looks for a cancelled context before each.
  function Relayed(count: nat, done: nat -> bool): (n: nat)
    ensures n <= count && (forall k :: 0 <= k < n ==> !done(k)) && (n < count ==> done(n))
  {
    RelayedFrom(0, count, done)
  }

  function RelayedFrom(k: nat, count: nat, done: nat -> bool): (n: nat)
    requires k <= count
    ensures k <= n <= count && (forall i :: k <= i < n ==> !done(i)) && (n < count ==> done(n))
    decreases count - k
  {
    if k == count || done(k) then k else RelayedFrom(k + 1, count, done)
  }

  // The loop over the scanned lines; n counts those relayed.
  method RelayScanned<J>(lines: seq<string>, done: nat -> bool, json: string -> Option<J>, sid: J -> string,
                         t: Ops.Task)
    returns (r: Relay, n: nat)
    modifies t
    ensures n == Relayed(|lines|, done) && r == RelayLines(lines[..n], json, sid)
    ensures t.Value() == RecordSessions(old(t.Value()), r.ids)
  {
    r, n := Relay("", "", []), 0;
    while n < |lines| && !done(n)
      invariant n <= |lines| && RelayedFrom(0, |lines|, done) == RelayedFrom(n, |lines|, done)
      invariant r == RelayLines(lines[..n], json, sid)
      invariant t.Value() == RecordSessions(old(t.Value()), r.ids)
    {
      assert lines[..n + 1] == lines[..n] + [lines[n]];
      r := RelayOne(lines[n], r, json, sid, old(t.Value()), t);
      n := n + 1;
    }
  }

  // From the upstream body to the response. broken: the body ends in a read error; done(k): the context has
  // been cancelled when the loop looks for the k-th time, or after the last line. The call fails when the
  // scanner did and the context is not cancelled.
  method StreamMessage<J>(body: string, broken: bool, done: nat -> bool, json: string -> Option<J>, sid: J -> string,
                          t: Ops.Task)
    returns (out: string, ok: bool)
    modifies t
    ensures var scanned := Scan(RawLines(body));
            var n := Relayed(|scanned.tokens|, done);
            var r := RelayLines(scanned.tokens[..n], json, sid);
            && out == r.out && t.Value() == RecordSessions(old(t.Value()), r.ids)
            && ok == (done(n) || !(scanned.tooLong || broken))
  {
    var scanned := Scan(RawLines(body));
    var r, n := RelayScanned(scanned.tokens, done, json, sid, t);
    out, ok := r.out, done(n) || !(scanned.tooLong || broken);
  }

  lemma {:induction false} RelayWritesLines<J>(lines: seq<string>, json: string -> Option<J>, sid: J -> string)
    ensures RelayLines(lines, json, sid).out == Join(lines)
  {
    if lines != [] { RelayWritesLines(lines[..|lines| - 1], json, sid); }
  }

  // The relay's output is its input exactly when every line is terminated, fits the scanner and does not
  // end in a carriage return.
  lemma {:induction false} RelayEchoes<J>(body: string, json: string -> Option<J>, sid: J -> string)
    ensures RelayLines(Scan(RawLines(body)).tokens, json, sid).out == body <==>
              var c := Split(body);
              c.rest == "" && forall l <- c.lines :: Fits(l) && DropCR(l) == l
  {
    RelayWritesLines(Scan(RawLines(body)).tokens, json, sid);
    var c := Split(body);
    if Join(Scan(RawLines(body)).tokens) == body { EchoOnlyIf(body); }
    if c.rest == "" && forall l <- c.lines :: Fits(l) && DropCR(l) == l { EchoIf(body); }
  }
}
