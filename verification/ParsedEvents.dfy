/** What the browser's parser yields, line by line of the text: one event for each data line, under the name in
    force there. */
module ParsedEvents {
  import opened Wrappers
  import opened Trimming
  import opened EventStream
  import opened StreamAgreement

  // The places of the data lines.
  function DataLines(lines: seq<string>): seq<nat> {
    if lines == [] then []
    else DataLines(lines[..|lines| - 1]) + if "data:" <= lines[|lines| - 1] then [|lines| - 1] else []
  }

  lemma {:induction false} DataLinesAre(lines: seq<string>)
    ensures forall k :: 0 <= k < |DataLines(lines)| ==>
              DataLines(lines)[k] < |lines| && "data:" <= lines[DataLines(lines)[k]]
    ensures forall j, k :: 0 <= j < k < |DataLines(lines)| ==> DataLines(lines)[j] < DataLines(lines)[k]
    ensures forall i :: 0 <= i < |lines| && "data:" <= lines[i] ==> i in DataLines(lines)
  {
    if lines != [] { DataLinesAre(lines[..|lines| - 1]); }
  }

  // The text of the k-th data line.
  function DataText(lines: seq<string>, k: nat): string
    requires k < |DataLines(lines)|
  {
    DataLinesAre(lines);
    TrimJs(lines[DataLines(lines)[k]][5..])
  }

  // Event k is the JSON of the k-th data line under the name in force before that line.
  ghost predicate IsEventOf<J>(e: Event<J>, lines: seq<string>, k: nat, json: string -> Option<J>)
    requires k < |DataLines(lines)|
  {
    DataLinesAre(lines);
    json(DataText(lines, k)) == Some(e.data) && e.name == ParserName(lines[..DataLines(lines)[k]])
  }

  // So many events, for so many data lines; fewer if and only if the next one is not JSON.
  ghost predicate Parsed<J>(p: Parser<J>, lines: seq<string>, json: string -> Option<J>) {
    && |p.events| <= |DataLines(lines)|
    && (forall k :: 0 <= k < |p.events| ==> IsEventOf(p.events[k], lines, k, json))
    && (p.thrown <==> |p.events| < |DataLines(lines)|)
    && (p.thrown ==> json(DataText(lines, |p.events|)).None?)
  }

  lemma DataLinesPush(lines: seq<string>, l: string, k: nat)
    requires k < |DataLines(lines)|
    ensures DataLines(lines + [l]) == DataLines(lines) + if "data:" <= l then [|lines|] else []
    ensures DataText(lines + [l], k) == DataText(lines, k)
    ensures DataLines(lines)[k] < |lines| && (lines + [l])[..DataLines(lines)[k]] == lines[..DataLines(lines)[k]]
  {
    assert (lines + [l])[..|lines|] == lines;
    DataLinesAre(lines);
  }

  lemma ParsedKept<J>(p: Parser<J>, lines: seq<string>, l: string, json: string -> Option<J>)
    requires Parsed(p, lines, json) && (p.thrown || !("data:" <= l))
    ensures forall q: Parser<J> :: q.events == p.events && q.thrown == p.thrown ==> Parsed(q, lines + [l], json)
  {
    assert (lines + [l])[..|lines|] == lines;
    forall k: nat | k < |DataLines(lines)|
      ensures k < |DataLines(lines + [l])| && DataText(lines + [l], k) == DataText(lines, k)
      ensures k < |p.events| ==> IsEventOf(p.events[k], lines + [l], k, json)
    {
      DataLinesPush(lines, l, k);
      if k < |p.events| { assert IsEventOf(p.events[k], lines, k, json); }
    }
  }

  lemma ParsedNext<J>(p: Parser<J>, lines: seq<string>, l: string, json: string -> Option<J>)
    requires Parsed(p, lines, json) && !p.thrown && "data:" <= l && p.current == ParserName(lines)
    ensures Parsed(ParseLine(p, l, json), lines + [l], json)
  {
    assert l[0] == 'd';
    forall k: nat | k < |p.events| ensures IsEventOf(p.events[k], lines + [l], k, json) {
      DataLinesPush(lines, l, k);
      assert IsEventOf(p.events[k], lines, k, json);
    }
  }

  // Main result: on any lines the parser yields one event for each data line, in order, with the JSON of its
  // trimmed text and the name in force before it; it throws exactly at the first that is not JSON.
  lemma {:induction false} ParserYields<J>(lines: seq<string>, json: string -> Option<J>)
    ensures Parsed(ParseLines(lines, json), lines, json)
  {
    if lines != [] {
      var init, l := lines[..|lines| - 1], lines[|lines| - 1];
      assert lines == init + [l];
      ParserYields(init, json);
      var p := ParseLines(init, json);
      if p.thrown || !("data:" <= l) {
        ParsedKept(p, init, l, json);
      } else {
        ParserReads(init, json, d => "");
        ParsedNext(p, init, l, json);
      }
    }
  }

  /* ---- the names in force ---- */

  // Line i gives the parser the name in force at the end: an event line, and no event or data line since.
  predicate GivesParserName(lines: seq<string>, i: nat) {
    && i < |lines| && "event:" <= lines[i]
    && forall j :: i < j < |lines| ==> !("event:" <= lines[j]) && !("data:" <= lines[j])
  }

  // The relay: an event line, and no event line or blank line since.
  predicate GivesRelayName(lines: seq<string>, i: nat) {
    && i < |lines| && "event:" <= lines[i]
    && forall j :: i < j < |lines| ==> !("event:" <= lines[j]) && lines[j] != ""
  }

  lemma {:induction false} ParserNameExactly(lines: seq<string>)
    ensures forall i: nat :: GivesParserName(lines, i) ==> ParserName(lines) == TrimJs(lines[i][6..])
    ensures (forall i: nat :: !GivesParserName(lines, i)) ==> ParserName(lines) == ""
  {
    if lines != [] {
      var init, l := lines[..|lines| - 1], lines[|lines| - 1];
      ParserNameExactly(init);
      assert "event:" <= l ==> GivesParserName(lines, |init|);
      if "data:" <= l { assert l[0] == 'd'; }
      forall i: nat | i < |init|
        ensures GivesParserName(lines, i) <==> GivesParserName(init, i) && !("event:" <= l) && !("data:" <= l)
      {
        assert forall j :: i < j < |init| ==> lines[j] == init[j];
        assert lines[|init|] == l;
      }
    }
  }

  lemma {:induction false} RelayNameExactly(lines: seq<string>)
    ensures forall i: nat :: GivesRelayName(lines, i) ==> RelayName(lines) == TrimGo(lines[i][6..])
    ensures (forall i: nat :: !GivesRelayName(lines, i)) ==> RelayName(lines) == ""
  {
    if lines != [] {
      var init, l := lines[..|lines| - 1], lines[|lines| - 1];
      RelayNameExactly(init);
      assert "event:" <= l ==> GivesRelayName(lines, |init|);
      forall i: nat | i < |init|
        ensures GivesRelayName(lines, i) <==> GivesRelayName(init, i) && !("event:" <= l) && l != ""
      {
        assert forall j :: i < j < |init| ==> lines[j] == init[j];
        assert lines[|init|] == l;
      }
    }
  }

  // An event line is recognised with white space around its name, as the wire format writes it.
  lemma PaddedNameIsRead(lines: seq<string>, l: string, r: string)
    requires forall c <- l + r :: c in " \t\r"
    ensures RelayName(lines + ["event:" + l + SESSION_INIT + r]) == SESSION_INIT
    ensures ParserName(lines + ["event:" + l + SESSION_INIT + r]) == SESSION_INIT
  {
    var text := l + SESSION_INIT + r;
    forall c | c in l || c in r ensures GoSpace(c) && JsSpace(c) { assert c in l + r; }
    TrimIs(text, l, SESSION_INIT, r, GoSpace);
    TrimIs(text, l, SESSION_INIT, r, JsSpace);
    EventLine(lines, text);
    assert "event:" + l + SESSION_INIT + r == "event:" + text;
  }

  // A data line that follows a blank line is a payload for the parser, whose name is still in force, and none
  // for the relay.
  lemma BlankLineDiffers(x: string)
    ensures var lines := ["event:" + SESSION_INIT] + [""] + ["data:" + x];
            RelayPayloads(lines) == [] && ParserPayloads(lines) == [TrimJs(x)]
  {
    var e := ["event:" + SESSION_INIT];
    InitIsTrimmed();
    EventLine([], SESSION_INIT);
    assert [] + e == e;
    assert RelayPayloads(e) + [] == RelayPayloads(e) && ParserPayloads(e) + [] == ParserPayloads(e);
    DataLine(e + [""], x);
    assert |SESSION_INIT| == 12;
  }
}
