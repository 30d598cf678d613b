/** When the relay and the browser's parser read the same session ids out of one stream, and which id stays on
    the task. */
module StreamAgreement {
  import opened Wrappers
  import opened Lines
  import opened Trimming
  import opened EventStream
  import Ops = TaskOps

  /* ---- the texts each side takes for a session.init payload ---- */

  // The event name in force after some lines: a blank line ends it for the relay, a data line for the parser.
  function RelayName(lines: seq<string>): string {
    if lines == [] then ""
    else
      var before, line := RelayName(lines[..|lines| - 1]), lines[|lines| - 1];
      if line == "" then "" else if "event:" <= line then TrimGo(line[6..]) else before
  }

  function ParserName(lines: seq<string>): string {
    if lines == [] then ""
    else
      var before, line := ParserName(lines[..|lines| - 1]), lines[|lines| - 1];
      if "event:" <= line then TrimJs(line[6..]) else if "data:" <= line then "" else before
  }

  function RelayPayloads(lines: seq<string>): seq<string> {
    if lines == [] then []
    else
      var before, line := lines[..|lines| - 1], lines[|lines| - 1];
      RelayPayloads(before) + if "data:" <= line && RelayName(before) == SESSION_INIT then [TrimGo(line[5..])] else []
  }

  function ParserPayloads(lines: seq<string>): seq<string> {
    if lines == [] then []
    else
      var before, line := lines[..|lines| - 1], lines[|lines| - 1];
      ParserPayloads(before) + if "data:" <= line && ParserName(before) == SESSION_INIT then [TrimJs(line[5..])] else []
  }

  lemma NamesPush(lines: seq<string>, l: string)
    ensures RelayName(lines + [l]) == if l == "" then "" else if "event:" <= l then TrimGo(l[6..]) else RelayName(lines)
    ensures ParserName(lines + [l]) ==
              if "event:" <= l then TrimJs(l[6..]) else if "data:" <= l then "" else ParserName(lines)
    ensures RelayPayloads(lines + [l]) == RelayPayloads(lines) +
              if "data:" <= l && RelayName(lines) == SESSION_INIT then [TrimGo(l[5..])] else []
    ensures ParserPayloads(lines + [l]) == ParserPayloads(lines) +
              if "data:" <= l && ParserName(lines) == SESSION_INIT then [TrimJs(l[5..])] else []
  {
    assert (lines + [l])[..|lines|] == lines;
  }

  // The non-empty session ids of payloads.
  function IdsOf<J>(payloads: seq<string>, json: string -> Option<J>, sid: J -> string): (ids: seq<string>)
    ensures forall id <- ids :: id != ""
  {
    if payloads == [] then []
    else
      var id := SessionIdIn(payloads[|payloads| - 1], json, sid);
      IdsOf(payloads[..|payloads| - 1], json, sid) + if id == "" then [] else [id]
  }

  lemma IdsPush<J>(payloads: seq<string>, x: string, json: string -> Option<J>, sid: J -> string)
    ensures IdsOf(payloads + [x], json, sid) ==
              var id := SessionIdIn(x, json, sid);
              IdsOf(payloads, json, sid) + if id == "" then [] else [id]
  {
    assert (payloads + [x])[..|payloads|] == payloads;
  }

  // The session ids among parsed events.
  function SessionIds<J>(events: seq<Event<J>>, sid: J -> string): seq<string> {
    if events == [] then []
    else
      var e := events[|events| - 1];
      SessionIds(events[..|events| - 1], sid) +
      if e.name == SESSION_INIT && sid(e.data) != "" then [sid(e.data)] else []
  }

  lemma SessionIdsPush<J>(events: seq<Event<J>>, e: Event<J>, sid: J -> string)
    ensures SessionIds(events + [e], sid) == SessionIds(events, sid) +
              if e.name == SESSION_INIT && sid(e.data) != "" then [sid(e.data)] else []
  {
    assert (events + [e])[..|events|] == events;
  }

  // The relay records exactly the ids of its payloads.
  lemma {:induction false} RelayReads<J>(lines: seq<string>, json: string -> Option<J>, sid: J -> string)
    ensures var r := RelayLines(lines, json, sid);
            r.current == RelayName(lines) && r.ids == IdsOf(RelayPayloads(lines), json, sid)
  {
    if lines != [] {
      var init, line := lines[..|lines| - 1], lines[|lines| - 1];
      RelayReads(init, json, sid);
      assert lines == init + [line];
      NamesPush(init, line);
      if "data:" <= line && RelayName(init) == SESSION_INIT {
        assert line[0] == 'd';
        IdsPush(RelayPayloads(init), TrimGo(line[5..]), json, sid);
      } else {
        assert RelayPayloads(lines) == RelayPayloads(init);
      }
    }
  }

  // The ids of a data line follow those before it.
  lemma ParserReadsData<J>(lines: seq<string>, line: string, json: string -> Option<J>, sid: J -> string)
    requires "data:" <= line
    ensures var before := IdsOf(ParserPayloads(lines), json, sid);
            var ids := IdsOf(ParserPayloads(lines + [line]), json, sid);
            && before <= ids
            && (json(TrimJs(line[5..])).Some? ==>
                  var d := json(TrimJs(line[5..])).value;
                  ids == before + if ParserName(lines) == SESSION_INIT && sid(d) != "" then [sid(d)] else [])
  {
    assert line[0] == 'd';
    NamesPush(lines, line);
    var before := ParserPayloads(lines);
    if ParserName(lines) == SESSION_INIT {
      IdsPush(before, TrimJs(line[5..]), json, sid);
    } else {
      assert ParserPayloads(lines + [line]) == before;
    }
  }

  // The parser yields the ids of its payloads: all of them, unless it throws.
  lemma {:induction false} ParserReads<J>(lines: seq<string>, json: string -> Option<J>, sid: J -> string)
    ensures var p, ids := ParseLines(lines, json), IdsOf(ParserPayloads(lines), json, sid);
            && (!p.thrown ==> p.current == ParserName(lines) && SessionIds(p.events, sid) == ids)
            && SessionIds(p.events, sid) <= ids
  {
    if lines != [] {
      var init, line := lines[..|lines| - 1], lines[|lines| - 1];
      ParserReads(init, json, sid);
      assert lines == init + [line];
      var p := ParseLines(init, json);
      if "data:" <= line {
        assert line[0] == 'd';
        ParserReadsData(init, line, json, sid);
        var data := json(TrimJs(line[5..]));
        if !p.thrown && data.Some? { SessionIdsPush(p.events, Event(p.current, data.value), sid); }
      } else {
        NamesPush(init, line);
        assert ParserPayloads(lines) == ParserPayloads(init);
      }
    }
  }

  /* ---- all ids agree ---- */

  // Unless the parse ends in a data line that is not JSON, both sides name the same ids.
  predicate SameIds<J>(lines: seq<string>, json: string -> Option<J>, sid: J -> string) {
    var p := ParseLines(lines, json);
    !p.thrown ==> SessionIds(p.events, sid) == RelayLines(lines, json, sid).ids
  }

  // A reading of payloads that tells any two apart: the payload itself, marked.
  function Read(text: string): Option<string> { Some(text) }

  function Marked(text: string): string { "id:" + text }

  lemma {:induction false} NeverThrown(lines: seq<string>, json: string -> Option<string>)
    requires forall x :: json(x).Some?
    ensures !ParseLines(lines, json).thrown
  {
    if lines != [] { NeverThrown(lines[..|lines| - 1], json); }
  }

  lemma {:induction false} IdsDetermine(a: seq<string>, b: seq<string>)
    requires IdsOf(a, Read, Marked) == IdsOf(b, Read, Marked)
    ensures a == b
  {
    MarkedIds(a);
    MarkedIds(b);
    forall i | 0 <= i < |a| ensures a[i] == b[i] {
      assert Marked(a[i])[3..] == Marked(b[i])[3..];
    }
  }

  lemma {:induction false} MarkedIds(a: seq<string>)
    ensures |IdsOf(a, Read, Marked)| == |a|
    ensures forall i :: 0 <= i < |a| ==> IdsOf(a, Read, Marked)[i] == Marked(a[i])
  {
    if a != [] { MarkedIds(a[..|a| - 1]); }
  }

  // Main result: relay and parser agree on a stream whatever its JSON holds exactly when they take the same
  // texts, in the same order, for session.init payloads.
  lemma {:induction false} AgreeExactly(lines: seq<string>)
    ensures (forall json: string -> Option<string>, sid: string -> string :: SameIds(lines, json, sid)) <==>
            RelayPayloads(lines) == ParserPayloads(lines)
  {
    if RelayPayloads(lines) == ParserPayloads(lines) {
      forall json: string -> Option<string>, sid: string -> string ensures SameIds(lines, json, sid) {
        SamePayloadsAgree(lines, json, sid);
      }
    }
    if forall json: string -> Option<string>, sid: string -> string :: SameIds(lines, json, sid) {
      assert SameIds(lines, Read, Marked);
      NeverThrown(lines, Read);
      RelayReads(lines, Read, Marked);
      ParserReads(lines, Read, Marked);
      IdsDetermine(RelayPayloads(lines), ParserPayloads(lines));
    }
  }

  // Of any kind of JSON value.
  lemma {:induction false} SamePayloadsAgree<J>(lines: seq<string>, json: string -> Option<J>, sid: J -> string)
    requires RelayPayloads(lines) == ParserPayloads(lines)
    ensures SameIds(lines, json, sid)
    ensures SessionIds(ParseLines(lines, json).events, sid) <= RelayLines(lines, json, sid).ids
  {
    RelayReads(lines, json, sid);
    ParserReads(lines, json, sid);
  }

  /* ---- the first id agrees ---- */

  function First(ids: seq<string>): Option<string> { if ids == [] then None else Some(ids[0]) }

  // Unless the parse throws, both sides name the same first id, or none.
  predicate SameFirst<J>(lines: seq<string>, json: string -> Option<J>, sid: J -> string) {
    var p := ParseLines(lines, json);
    !p.thrown ==> First(SessionIds(p.events, sid)) == First(RelayLines(lines, json, sid).ids)
  }

  // Each text once, where it occurs first.
  function FirstOccurrences(xs: seq<string>): (r: seq<string>)
    ensures forall x :: x in r <==> x in xs
    ensures forall i, j :: 0 <= i < j < |r| ==> r[i] != r[j]
  {
    if xs == [] then []
    else
      var r, x := FirstOccurrences(xs[..|xs| - 1]), xs[|xs| - 1];
      assert forall y :: y in xs <==> y in xs[..|xs| - 1] || y == x;
      if x in r then r else r + [x]
  }

  lemma {:induction false} NoIds<J>(payloads: seq<string>, json: string -> Option<J>, sid: J -> string)
    ensures IdsOf(payloads, json, sid) == [] <==> forall x <- payloads :: SessionIdIn(x, json, sid) == ""
  {
    if payloads != [] {
      var init, last := payloads[..|payloads| - 1], payloads[|payloads| - 1];
      NoIds(init, json, sid);
      assert forall y :: y in payloads <==> y in init || y == last;
    }
  }

  lemma {:induction false} FirstOfOccurrences<J>(payloads: seq<string>, json: string -> Option<J>, sid: J -> string)
    ensures First(IdsOf(FirstOccurrences(payloads), json, sid)) == First(IdsOf(payloads, json, sid))
  {
    if payloads != [] {
      var init, x := payloads[..|payloads| - 1], payloads[|payloads| - 1];
      FirstOfOccurrences(init, json, sid);
      if x in init {
        NoIds(init, json, sid);
      } else {
        IdsPush(FirstOccurrences(init), x, json, sid);
      }
    }
  }

  // With ids for the texts of a set only, the first id is that of the first text in the set.
  function MarkedIn(chosen: set<string>): string -> string { x => if x in chosen then Marked(x) else "" }

  lemma {:induction false} FirstChosen(xs: seq<string>, i: nat, chosen: set<string>)
    requires i <= |xs| && (forall k :: 0 <= k < i ==> xs[k] !in chosen) && (i < |xs| ==> xs[i] in chosen)
    ensures First(IdsOf(xs, Read, MarkedIn(chosen))) == if i < |xs| then Some(Marked(xs[i])) else None
  {
    if xs != [] {
      var init := xs[..|xs| - 1];
      FirstChosen(init, if i < |xs| then i else i - 1, chosen);
    }
  }

  // Two sequences without repetition differ first at some place, and some choice of ids shows it.
  lemma {:induction false} OccurrencesDiffer(xs: seq<string>, ys: seq<string>) returns (chosen: set<string>)
    requires forall i, j :: 0 <= i < j < |xs| ==> xs[i] != xs[j]
    requires forall i, j :: 0 <= i < j < |ys| ==> ys[i] != ys[j]
    requires xs != ys
    ensures First(IdsOf(xs, Read, MarkedIn(chosen))) != First(IdsOf(ys, Read, MarkedIn(chosen)))
  {
    var i := 0;
    while i < |xs| && i < |ys| && xs[i] == ys[i]
      invariant i <= |xs| && i <= |ys| && xs[..i] == ys[..i]
    {
      i := i + 1;
    }
    assert xs == xs[..i] + xs[i..] && ys == ys[..i] + ys[i..];
    chosen := (if i < |xs| then {xs[i]} else {}) + (if i < |ys| then {ys[i]} else {});
    assert forall k :: 0 <= k < i ==> xs[k] == xs[..i][k] == ys[..i][k] == ys[k];
    FirstChosen(xs, i, chosen);
    FirstChosen(ys, i, chosen);
    if i < |xs| && i < |ys| { assert Marked(xs[i])[3..] != Marked(ys[i])[3..]; }
  }

  // Main result: they agree on the first id, the one that stays on the task, exactly when the texts both take
  // for payloads occur for the first time in the same order.
  lemma {:induction false} FirstAgreesExactly(lines: seq<string>)
    ensures (forall json: string -> Option<string>, sid: string -> string :: SameFirst(lines, json, sid)) <==>
            FirstOccurrences(RelayPayloads(lines)) == FirstOccurrences(ParserPayloads(lines))
  {
    if FirstOccurrences(RelayPayloads(lines)) == FirstOccurrences(ParserPayloads(lines)) {
      forall json: string -> Option<string>, sid: string -> string ensures SameFirst(lines, json, sid) {
        SameOccurrencesAgree(lines, json, sid);
      }
    } else {
      var chosen := OccurrencesDiffer(FirstOccurrences(RelayPayloads(lines)), FirstOccurrences(ParserPayloads(lines)));
      var sid := MarkedIn(chosen);
      FirstOfOccurrences(RelayPayloads(lines), Read, sid);
      FirstOfOccurrences(ParserPayloads(lines), Read, sid);
      NeverThrown(lines, Read);
      RelayReads(lines, Read, sid);
      ParserReads(lines, Read, sid);
      assert !SameFirst(lines, Read, sid);
    }
  }

  lemma {:induction false} SameOccurrencesAgree<J>(lines: seq<string>, json: string -> Option<J>, sid: J -> string)
    requires FirstOccurrences(RelayPayloads(lines)) == FirstOccurrences(ParserPayloads(lines))
    ensures SameFirst(lines, json, sid)
    ensures var parsed := SessionIds(ParseLines(lines, json).events, sid);
            parsed != [] ==> First(RelayLines(lines, json, sid).ids) == First(parsed)
  {
    FirstOfOccurrences(RelayPayloads(lines), json, sid);
    FirstOfOccurrences(ParserPayloads(lines), json, sid);
    RelayReads(lines, json, sid);
    ParserReads(lines, json, sid);
  }

  /* ---- through the relay, in chunks, to the task ---- */

  // The browser gets, in some chunks, the first n lines of a body as the relay writes them.
  predicate Received<J>(body: string, n: nat, chunks: seq<string>, json: string -> Option<J>, sid: J -> string) {
    n <= |Scan(RawLines(body)).tokens| &&
    Concat(chunks) == RelayLines(Scan(RawLines(body)).tokens[..n], json, sid).out
  }

  // What it then parses are those lines, however they were chunked.
  lemma {:induction false} ReceivesLines<J>(body: string, n: nat, chunks: seq<string>, json: string -> Option<J>,
                                            sid: J -> string)
    requires Received(body, n, chunks, json, sid)
    ensures Split(Concat(chunks)) == Cut(Scan(RawLines(body)).tokens[..n], "")
  {
    var raw, lines := RawLines(body), Scan(RawLines(body)).tokens[..n];
    RelayWritesLines(lines, json, sid);
    forall i | 0 <= i < |lines| ensures '\n' !in lines[i] { assert raw[i] in raw; }
    SplitJoin(lines);
  }

  // Main result: for every body, cut off anywhere, and every chunking, what the browser parses names the ids
  // the relay recorded, if the relayed lines have the same payloads on both sides; all of them, unless a data
  // line is not JSON.
  lemma {:induction false} RelayAndParserAgree<J>(body: string, n: nat, chunks: seq<string>, json: string -> Option<J>,
                                                  sid: J -> string)
    requires Received(body, n, chunks, json, sid)
    ensures var lines := Scan(RawLines(body)).tokens[..n];
            var r, p := RelayLines(lines, json, sid), ParseLines(Split(Concat(chunks)).lines, json);
            RelayPayloads(lines) == ParserPayloads(lines) ==>
              && SessionIds(p.events, sid) <= r.ids
              && (!p.thrown ==> SessionIds(p.events, sid) == r.ids)
  {
    var lines := Scan(RawLines(body)).tokens[..n];
    ReceivesLines(body, n, chunks, json, sid);
    if RelayPayloads(lines) == ParserPayloads(lines) { SamePayloadsAgree(lines, json, sid); }
  }

  // The id that stays: the one the task had, or else the first one recorded.
  lemma {:induction false} FirstSessionStays(s: Ops.Snapshot, ids: seq<string>)
    requires Ops.Shaped(s) && forall id <- ids :: id != ""
    ensures Ops.Shaped(RecordSessions(s, ids))
    ensures Ops.Reload(RecordSessions(s, ids)) ==
              if Ops.Reload(s).sessionId == "" && ids != [] then Ops.Reload(s).(sessionId := ids[0]) else Ops.Reload(s)
  {
    if ids != [] {
      var init := ids[..|ids| - 1];
      forall id | id in init ensures id != "" { assert id in ids; }
      FirstSessionStays(s, init);
      Ops.ReloadAfterStep(RecordSessions(s, ids[..|ids| - 1]), Ops.SetSessionId(ids[|ids| - 1]));
      assert ids[0] in ids;
    }
  }

  lemma {:induction false} RecordedIdsNonEmpty<J>(lines: seq<string>, json: string -> Option<J>, sid: J -> string)
    ensures forall id <- RelayLines(lines, json, sid).ids :: id != ""
  {
    if lines != [] { RecordedIdsNonEmpty(lines[..|lines| - 1], json, sid); }
  }

  // Main result: a task without a session, after its stream, holds the first session id that the browser
  // parses out of what it received, on every store, if the payloads occur in the same order on both sides; if
  // there is none and the parse ran to the end, the task is as before.
  lemma {:induction false} StoredSessionIsFirstParsed<J>(s: Ops.Snapshot, body: string, n: nat, chunks: seq<string>,
                                                         json: string -> Option<J>, sid: J -> string)
    requires Ops.Shaped(s) && Ops.Reload(s).sessionId == ""
    requires Received(body, n, chunks, json, sid)
    ensures var lines := Scan(RawLines(body)).tokens[..n];
            var p := ParseLines(Split(Concat(chunks)).lines, json);
            var ids, after := SessionIds(p.events, sid), RecordSessions(s, RelayLines(lines, json, sid).ids);
            FirstOccurrences(RelayPayloads(lines)) == FirstOccurrences(ParserPayloads(lines)) ==>
              && (ids != [] ==> Ops.Reload(after) == Ops.Reload(s).(sessionId := ids[0]))
              && (ids == [] && !p.thrown ==> Ops.Reload(after) == Ops.Reload(s))
  {
    var lines := Scan(RawLines(body)).tokens[..n];
    ReceivesLines(body, n, chunks, json, sid);
    RelayReads(lines, json, sid);
    FirstSessionStays(s, RelayLines(lines, json, sid).ids);
    if FirstOccurrences(RelayPayloads(lines)) == FirstOccurrences(ParserPayloads(lines)) {
      SameOccurrencesAgree(lines, json, sid);
    }
  }

  /* ---- frames ---- */

  // A complete frame: an event line, a data line and a blank line.
  datatype Frame = Frame(event: string, data: string)

  function FrameLines(frames: seq<Frame>): seq<string> {
    if frames == [] then []
    else
      var f := frames[|frames| - 1];
      FrameLines(frames[..|frames| - 1]) + ["event:" + f.event] + ["data:" + f.data] + [""]
  }

  // The payloads of session.init frames, under one of the trims.
  function FramePayloads(frames: seq<Frame>, trim: string -> string): seq<string> {
    if frames == [] then []
    else
      var f := frames[|frames| - 1];
      FramePayloads(frames[..|frames| - 1], trim) + if trim(f.event) == SESSION_INIT then [trim(f.data)] else []
  }

  lemma DataLine(lines: seq<string>, x: string)
    ensures RelayName(lines + ["data:" + x]) == RelayName(lines) && ParserName(lines + ["data:" + x]) == ""
    ensures RelayPayloads(lines + ["data:" + x]) ==
              RelayPayloads(lines) + if RelayName(lines) == SESSION_INIT then [TrimGo(x)] else []
    ensures ParserPayloads(lines + ["data:" + x]) ==
              ParserPayloads(lines) + if ParserName(lines) == SESSION_INIT then [TrimJs(x)] else []
  {
    var d := "data:" + x;
    assert d[0] == 'd' && d[5..] == x;
    NamesPush(lines, d);
  }

  lemma EventLine(lines: seq<string>, event: string)
    ensures RelayName(lines + ["event:" + event]) == TrimGo(event)
    ensures ParserName(lines + ["event:" + event]) == TrimJs(event)
    ensures RelayPayloads(lines + ["event:" + event]) == RelayPayloads(lines)
    ensures ParserPayloads(lines + ["event:" + event]) == ParserPayloads(lines)
  {
    var e := "event:" + event;
    assert e[0] == 'e' && e[6..] == event;
    NamesPush(lines, e);
    assert RelayPayloads(lines) + [] == RelayPayloads(lines) && ParserPayloads(lines) + [] == ParserPayloads(lines);
  }

  lemma FramePush(lines: seq<string>, event: string, data: string)
    ensures var all := lines + ["event:" + event] + ["data:" + data] + [""];
            && RelayPayloads(all) ==
                 RelayPayloads(lines) + (if TrimGo(event) == SESSION_INIT then [TrimGo(data)] else [])
            && ParserPayloads(all) ==
                 ParserPayloads(lines) + (if TrimJs(event) == SESSION_INIT then [TrimJs(data)] else [])
  {
    var one := lines + ["event:" + event];
    var two := one + ["data:" + data];
    EventLine(lines, event);
    DataLine(one, data);
    NamesPush(two, "");
    assert RelayPayloads(two) + [] == RelayPayloads(two) && ParserPayloads(two) + [] == ParserPayloads(two);
  }

  lemma {:induction false} FramesHavePayloads(frames: seq<Frame>)
    ensures RelayPayloads(FrameLines(frames)) == FramePayloads(frames, TrimGo)
    ensures ParserPayloads(FrameLines(frames)) == FramePayloads(frames, TrimJs)
  {
    if frames != [] {
      var f := frames[|frames| - 1];
      FramesHavePayloads(frames[..|frames| - 1]);
      FramePush(FrameLines(frames[..|frames| - 1]), f.event, f.data);
    }
  }

  // Relay and parser agree on a stream of complete frames if the two languages trim its texts alike.
  lemma {:induction false} FramesAgree(frames: seq<Frame>)
    requires forall f <- frames :: TrimsAlike(f.event) && TrimsAlike(f.data)
    ensures RelayPayloads(FrameLines(frames)) == ParserPayloads(FrameLines(frames))
  {
    FramesHavePayloads(frames);
    FramesTrimAlike(frames);
  }

  lemma {:induction false} FramesTrimAlike(frames: seq<Frame>)
    requires forall f <- frames :: TrimsAlike(f.event) && TrimsAlike(f.data)
    ensures FramePayloads(frames, TrimGo) == FramePayloads(frames, TrimJs)
  {
    if frames != [] {
      var f := frames[|frames| - 1];
      FramesTrimAlike(frames[..|frames| - 1]);
      assert f in frames;
      TrimsAgreeExactly(f.event);
      TrimsAgreeExactly(f.data);
    }
  }

  lemma InitIsTrimmed()
    ensures TrimGo(SESSION_INIT) == SESSION_INIT == TrimJs(SESSION_INIT)
  {
    TrimIs(SESSION_INIT, "", SESSION_INIT, "", GoSpace);
    TrimIs(SESSION_INIT, "", SESSION_INIT, "", JsSpace);
  }

  lemma OneFrame(event: string, data: string)
    ensures var lines := FrameLines([Frame(event, data)]);
            && RelayPayloads(lines) == (if TrimGo(event) == SESSION_INIT then [TrimGo(data)] else [])
            && ParserPayloads(lines) == (if TrimJs(event) == SESSION_INIT then [TrimJs(data)] else [])
  {
    var f := Frame(event, data);
    assert [f][..0] == [];
    FramesHavePayloads([f]);
    assert FramePayloads([f], TrimGo) == [] + if TrimGo(event) == SESSION_INIT then [TrimGo(data)] else [];
    assert FramePayloads([f], TrimJs) == [] + if TrimJs(event) == SESSION_INIT then [TrimJs(data)] else [];
  }

  // One session.init frame is read alike exactly when its data is trimmed alike.
  lemma {:induction false} OneFrameAgreesExactly(data: string)
    ensures var lines := FrameLines([Frame(SESSION_INIT, data)]);
            RelayPayloads(lines) == ParserPayloads(lines) <==> TrimsAlike(data)
  {
    InitIsTrimmed();
    OneFrame(SESSION_INIT, data);
    TrimsAgreeExactly(data);
  }

  /* ---- streams that the two sides read differently ---- */

  const BYTE_ORDER_MARK := '\U{FEFF}'

  lemma MarkTrims(x: string)
    requires x != "" && x[0] == '{' && x[|x| - 1] == '}'
    ensures TrimGo([BYTE_ORDER_MARK] + x) == [BYTE_ORDER_MARK] + x && TrimJs([BYTE_ORDER_MARK] + x) == x
  {
    var s := [BYTE_ORDER_MARK] + x;
    assert s == [] + s + [] && s == [BYTE_ORDER_MARK] + x + [];
    TrimIs(s, [], s, [], GoSpace);
    TrimIs(s, [BYTE_ORDER_MARK], x, [], JsSpace);
  }

  // A byte order mark before the JSON of a payload: trimmed by the browser, part of the text for the relay.
  lemma {:induction false} ByteOrderMarkDiffers(x: string)
    requires x != "" && x[0] == '{' && x[|x| - 1] == '}'
    ensures var lines := FrameLines([Frame(SESSION_INIT, [BYTE_ORDER_MARK] + x)]);
            RelayPayloads(lines) == [[BYTE_ORDER_MARK] + x] && ParserPayloads(lines) == [x]
  {
    InitIsTrimmed();
    MarkTrims(x);
    OneFrame(SESSION_INIT, [BYTE_ORDER_MARK] + x);
  }

  // Two data lines in one session.init frame: the relay takes both for payloads, the parser the first.
  lemma {:induction false} SecondDataLineDiffers(x: string, y: string)
    ensures var lines := ["event:" + SESSION_INIT] + ["data:" + x] + ["data:" + y];
            RelayPayloads(lines) == [TrimGo(x), TrimGo(y)] && ParserPayloads(lines) == [TrimJs(x)]
  {
    InitIsTrimmed();
    EventLine([], SESSION_INIT);
    assert [] + ["event:" + SESSION_INIT] == ["event:" + SESSION_INIT];
    DataLine(["event:" + SESSION_INIT], x);
    DataLine(["event:" + SESSION_INIT] + ["data:" + x], y);
    assert |SESSION_INIT| == 12;
  }
}
