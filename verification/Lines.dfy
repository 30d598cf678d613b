/** Text cut into lines: the cut itself, and the line scanner of the Go standard library, which drops a
    trailing carriage return and stops at a line that does not fit its buffer. */
module Lines {

  // The complete lines of a text, and what follows the last newline.
  datatype Cut = Cut(lines: seq<string>, rest: string)

  function Split(s: string): (c: Cut)
    ensures '\n' !in c.rest
    ensures forall l <- c.lines :: '\n' !in l
  {
    if s == "" then Cut([], "")
    else
      var c := Split(s[..|s| - 1]);
      if s[|s| - 1] == '\n' then Cut(c.lines + [c.rest], "") else Cut(c.lines, c.rest + [s[|s| - 1]])
  }

  // Each line with its newline.
  function Join(lines: seq<string>): string {
    if lines == [] then "" else Join(lines[..|lines| - 1]) + lines[|lines| - 1] + "\n"
  }

  lemma {:induction false} SplitNoNewline(s: string)
    requires '\n' !in s
    ensures Split(s) == Cut([], s)
  {
    if s != "" {
      SplitNoNewline(s[..|s| - 1]);
      assert s[|s| - 1] in s;
    }
  }

  // A text cut after a part of it: only the rest of that part matters for the lines to come.
  lemma {:induction false} SplitAppend(s: string, t: string)
    ensures var c, d := Split(s), Split(Split(s).rest + t);
            Split(s + t) == Cut(c.lines + d.lines, d.rest)
  {
    if t == "" {
      SplitNoNewline(Split(s).rest);
      assert s + t == s && Split(s).rest + t == Split(s).rest;
    } else {
      var u, x := t[..|t| - 1], t[|t| - 1];
      SplitAppend(s, u);
      assert s + t == (s + u) + [x] && Split(s).rest + t == (Split(s).rest + u) + [x];
    }
  }

  lemma SplitLine(l: string)
    requires '\n' !in l
    ensures Split(l + "\n") == Cut([l], "")
  {
    SplitNoNewline(l);
  }

  lemma JoinPush(lines: seq<string>, l: string)
    ensures Join(lines + [l]) == Join(lines) + (l + "\n")
  {
    assert (lines + [l])[..|lines|] == lines;
    assert Join(lines) + l + "\n" == Join(lines) + (l + "\n");
  }

  lemma {:induction false} SplitAppendLine(s: string, l: string)
    requires Split(s).rest == "" && '\n' !in l
    ensures Split(s + (l + "\n")) == Cut(Split(s).lines + [l], "")
  {
    SplitAppend(s, l + "\n");
    assert "" + (l + "\n") == l + "\n";
    SplitLine(l);
  }

  // Cutting undoes joining.
  lemma {:induction false} SplitJoin(lines: seq<string>)
    requires forall l <- lines :: '\n' !in l
    ensures Split(Join(lines)) == Cut(lines, "")
  {
    if lines != [] {
      var init, l := lines[..|lines| - 1], lines[|lines| - 1];
      assert init + [l] == lines && l in lines;
      SplitJoin(init);
      JoinPush(init, l);
      SplitAppendLine(Join(init), l);
    }
  }

  // Joining undoes cutting.
  lemma {:induction false} JoinSplit(s: string)
    ensures Join(Split(s).lines) + Split(s).rest == s
  {
    if s != "" {
      var u, x := s[..|s| - 1], s[|s| - 1];
      JoinSplit(u);
      var c := Split(u);
      assert (c.lines + [c.rest])[..|c.lines|] == c.lines;
      assert s == u + [x];
    }
  }

  /* ---- bufio.Scanner over lines ---- */

  const MAX_LINE: nat := 1_048_576  // bytes of buffer; a line and its newline must fit

  function Utf8Length(s: string): (n: nat)
    ensures n >= |s|
  {
    if s == "" then 0
    else
      var c := s[|s| - 1] as int;
      Utf8Length(s[..|s| - 1]) + if c < 0x80 then 1 else if c < 0x800 then 2 else if c < 0x10000 then 3 else 4
  }

  function DropCR(l: string): string {
    if l != "" && l[|l| - 1] == '\r' then l[..|l| - 1] else l
  }

  predicate Fits(l: string) { Utf8Length(l) < MAX_LINE }

  // The raw lines a scanner meets: an unterminated last line counts when it is not empty.
  function RawLines(s: string): (r: seq<string>)
    ensures forall l <- r :: '\n' !in l
  {
    var c := Split(s);
    if c.rest == "" then c.lines else c.lines + [c.rest]
  }

  datatype Scanned = Scanned(tokens: seq<string>, tooLong: bool)

  function Scan(raw: seq<string>): (r: Scanned)
    ensures |r.tokens| <= |raw|
    ensures forall i :: 0 <= i < |r.tokens| ==> Fits(raw[i]) && r.tokens[i] == DropCR(raw[i])
    ensures r.tooLong <==> |r.tokens| < |raw|
    ensures r.tooLong ==> !Fits(raw[|r.tokens|])
  {
    if raw == [] then Scanned([], false)
    else if !Fits(raw[0]) then Scanned([], true)
    else
      var rest := Scan(raw[1..]);
      Scanned([DropCR(raw[0])] + rest.tokens, rest.tooLong)
  }

  predicate IsAscii(c: char) { c as int < 0x80 }

  // A line of ASCII characters fits if and only if it is shorter than the buffer.
  lemma {:induction false} AsciiLength(l: string)
    requires forall c <- l :: IsAscii(c)
    ensures Utf8Length(l) == |l| && (Fits(l) <==> |l| < 1_048_576)
  {
    if l != "" {
      assert l[|l| - 1] in l && IsAscii(l[|l| - 1]);
      AsciiLength(l[..|l| - 1]);
    }
  }

  // One carriage return goes, and no other character.
  lemma DropsOneReturn(l: string)
    ensures DropCR(l + "\r") == l && (l != "" && l[|l| - 1] != '\r' ==> DropCR(l) == l)
  {
    assert (l + "\r")[..|l|] == l;
  }

  // Scanning and re-emitting a text reproduces it exactly when every line is terminated, fits the
  // buffer and does not end in a carriage return.
  lemma {:induction false} EchoOnlyIf(s: string)
    requires Join(Scan(RawLines(s)).tokens) == s
    ensures Split(s).rest == "" && forall l <- Split(s).lines :: Fits(l) && DropCR(l) == l
  {
    var raw, tokens := RawLines(s), Scan(RawLines(s)).tokens;
    forall i | 0 <= i < |tokens| ensures '\n' !in tokens[i] {
      assert raw[i] in raw;
    }
    SplitJoin(tokens);
    assert Split(s).lines == tokens == raw;
    forall i | 0 <= i < |tokens| ensures Fits(tokens[i]) && DropCR(tokens[i]) == tokens[i] {
      assert tokens[i] == DropCR(raw[i]);
    }
  }

  lemma {:induction false} EchoIf(s: string)
    requires Split(s).rest == "" && forall l <- Split(s).lines :: Fits(l) && DropCR(l) == l
    ensures Join(Scan(RawLines(s)).tokens) == s && !Scan(RawLines(s)).tooLong
  {
    var raw, scanned := RawLines(s), Scan(RawLines(s));
    assert forall i :: 0 <= i < |raw| ==> raw[i] in Split(s).lines;
    assert scanned.tokens == raw;
    JoinSplit(s);
    assert Join(Split(s).lines) + "" == Join(Split(s).lines);
  }
}
