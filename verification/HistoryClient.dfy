/** The history client: listing loops over pages, reading one part, and the concurrent download. Every
    method is proved against the functions of History. */
module HistoryClient {
  import opened Wrappers
  import opened Sequences
  import opened Lines
  import opened History
  import opened Paths

  const MAX_CONCURRENT: nat := 8

  // The keys of a paginated listing; the first page that fails is the result.
  function Fetched(pages: seq<Result<seq<Key>>>): Result<seq<Key>> {
    if pages == [] then Ok([])
    else
      var before, page := Fetched(pages[..|pages| - 1]), pages[|pages| - 1];
      if before.Err? then before else if page.Err? then page else Ok(before.value + page.value)
  }

  lemma FetchedPush(pages: seq<Result<seq<Key>>>, i: nat)
    requires i < |pages|
    ensures Fetched(pages[..i + 1]) ==
              var before := Fetched(pages[..i]);
              if before.Err? then before else if pages[i].Err? then pages[i] else Ok(before.value + pages[i].value)
  {
    assert pages[..i + 1][..i] == pages[..i];
  }

  lemma {:induction false} FailureStays(pages: seq<Result<seq<Key>>>, i: nat)
    requires i <= |pages| && Fetched(pages[..i]).Err?
    ensures Fetched(pages) == Fetched(pages[..i])
    decreases |pages| - i
  {
    if i == |pages| {
      assert pages[..i] == pages;
    } else {
      FetchedPush(pages, i);
      FailureStays(pages, i + 1);
    }
  }

  // Pages of listings follow each other, one page alone is what it holds, and no page holds nothing.
  lemma {:induction false} FetchedAppend(a: seq<Result<seq<Key>>>, b: seq<Result<seq<Key>>>, page: Result<seq<Key>>)
    ensures Fetched([]) == Ok([]) && Fetched([page]) == page
    ensures var first, second := Fetched(a), Fetched(b);
            Fetched(a + b) == if first.Err? then first else if second.Err? then second
                              else Ok(first.value + second.value)
  {
    FetchedPush([page], 0);
    assert [page][..1] == [page] && (page.Ok? ==> [] + page.value == page.value);
    if b == [] {
      assert a + b == a;
      assert Fetched(a).Ok? ==> Fetched(a).value + [] == Fetched(a).value;
    } else {
      var init, last := b[..|b| - 1], b[|b| - 1];
      FetchedAppend(a, init, page);
      assert (a + b)[..|a + b| - 1] == a + init && (a + b)[|a + b| - 1] == last;
      if Fetched(a).Ok? && Fetched(init).Ok? && last.Ok? {
        assert (Fetched(a).value + Fetched(init).value) + last.value
            == Fetched(a).value + (Fetched(init).value + last.value);
      }
    }
  }

  // The sessions of one page; before are the keys of the pages before.
  method AddPage(ghost before: seq<Key>, page: seq<Key>, prefix: Key, seen: set<Key>, sessions: seq<Key>)
    returns (seen': set<Key>, sessions': seq<Key>)
    requires forall k <- page :: prefix <= k
    requires sessions == Sessions(prefix, before) && seen == set g | g in sessions
    ensures sessions' == Sessions(prefix, before + page) && seen' == set g | g in sessions'
  {
    seen', sessions' := seen, sessions;
    assert before + page[..0] == before;
    for j := 0 to |page|
      invariant sessions' == Sessions(prefix, before + page[..j])
      invariant seen' == set g | g in sessions'
    {
      var k := page[j];
      assert k in page;
      TakeMore(before, page, j);
      if '/' in k[|prefix|..] {
        var sessionPrefix := prefix + UpToSlash(k[|prefix|..]);
        if sessionPrefix !in seen' {
          seen', sessions' := seen' + {sessionPrefix}, sessions' + [sessionPrefix];
        }
      }
    }
    assert page[..|page|] == page;
  }

  method ListHistory(pages: seq<Result<seq<Key>>>, prefix: Key) returns (r: Result<seq<Key>>)
    requires forall page <- pages :: page.Ok? ==> forall k <- page.value :: prefix <= k
    ensures var listed := Fetched(pages);
            r == if listed.Err? then Err(listed.error) else Ok(Sessions(prefix, listed.value))
  {
    var seen: set<Key>, sessions: seq<Key> := {}, [];
    for i := 0 to |pages|
      invariant Fetched(pages[..i]).Ok? && sessions == Sessions(prefix, Fetched(pages[..i]).value)
      invariant seen == set g | g in sessions
    {
      FetchedPush(pages, i);
      if pages[i].Err? {
        FailureStays(pages, i + 1);
        return Err(pages[i].error);
      }
      assert pages[i] in pages;
      seen, sessions := AddPage(Fetched(pages[..i]).value, pages[i].value, prefix, seen, sessions);
    }
    assert pages[..|pages|] == pages;
    r := Ok(sessions);
  }

  // The part keys of one page; before are the keys of the pages before.
  method AddParts(ghost before: seq<Key>, page: seq<Key>, named: Key -> bool, partKeys: seq<Key>)
    returns (partKeys': seq<Key>)
    requires partKeys == Filter(before, named)
    ensures partKeys' == Filter(before + page, named)
  {
    partKeys' := partKeys;
    assert before + page[..0] == before;
    for j := 0 to |page|
      invariant partKeys' == Filter(before + page[..j], named)
    {
      TakeMore(before, page, j);
      FilterPush(before + page[..j], page[j], named);
      if named(page[j]) { partKeys' := partKeys' + [page[j]]; }
    }
    assert page[..|page|] == page;
  }

  // The listing loop of GetHistory and GetAllHistory, which keep the keys named like part files.
  method ListParts(pages: seq<Result<seq<Key>>>, named: Key -> bool) returns (r: Result<seq<Key>>)
    ensures var listed := Fetched(pages);
            r == if listed.Err? then Err(listed.error) else Ok(Filter(listed.value, named))
  {
    var partKeys: seq<Key> := [];
    for i := 0 to |pages|
      invariant Fetched(pages[..i]).Ok? && partKeys == Filter(Fetched(pages[..i]).value, named)
    {
      FetchedPush(pages, i);
      var page := pages[i];
      if page.Err? {
        FailureStays(pages, i + 1);
        return Err(page.error);
      }
      partKeys := AddParts(Fetched(pages[..i]).value, page.value, named, partKeys);
    }
    assert pages[..|pages|] == pages;
    r := Ok(partKeys);
  }

  // isMeta: the flag of an entry line, or None for a line that is not a JSON object.
  predicate Keeps(line: string, isMeta: string -> Option<bool>) {
    line != "" && isMeta(line) == Some(false)
  }

  function Kept(lines: seq<string>, isMeta: string -> Option<bool>): seq<Entry> {
    Filter(lines, l => Keeps(l, isMeta))
  }

  // Each line stays as often as it was there if it is not empty and parses as an entry that is not meta, and
  // goes otherwise.
  lemma KeptCount(lines: seq<string>, isMeta: string -> Option<bool>, l: string)
    ensures multiset(Kept(lines, isMeta))[l] ==
              if l != "" && isMeta(l) == Some(false) then multiset(lines)[l] else 0
  {
    FilterCount(lines, l => Keeps(l, isMeta), l);
  }

  // And those that stay keep their order.
  lemma KeptInOrder(a: seq<string>, l: string, b: seq<string>, isMeta: string -> Option<bool>)
    ensures Kept(a + [l] + b, isMeta) ==
              Kept(a, isMeta) + (if l != "" && isMeta(l) == Some(false) then [l] else []) + Kept(b, isMeta)
  {
    FilterAppend(a + [l], b, l => Keeps(l, isMeta));
  }

  // What fetching an object gives: its text, and whether reading that broke off.
  datatype Body = Body(text: string, broken: bool)

  method ReadPart(fetched: Result<Body>, isMeta: string -> Option<bool>) returns (r: Result<seq<Entry>>)
    ensures r.Ok? <==> fetched.Ok? && !fetched.value.broken && !Scan(RawLines(fetched.value.text)).tooLong
    ensures r.Ok? ==> r.value == Kept(Scan(RawLines(fetched.value.text)).tokens, isMeta)
    ensures r.Ok? ==> forall l <- r.value :: l != "" && isMeta(l) == Some(false)
    ensures r.Ok? ==> forall l <- Scan(RawLines(fetched.value.text)).tokens ::
              l != "" && isMeta(l) == Some(false) ==> l in r.value
  {
    if fetched.Err? { return Err(fetched.error); }
    var scanned := Scan(RawLines(fetched.value.text));
    var entries := KeepEntries(scanned.tokens, isMeta);
    r := if scanned.tooLong then Err("token too long")
         else if fetched.value.broken then Err("read failed")
         else Ok(entries);
  }

  // The loop over the scanned lines: empty, unparsable and meta lines are passed over.
  method KeepEntries(lines: seq<string>, isMeta: string -> Option<bool>) returns (entries: seq<Entry>)
    ensures entries == Kept(lines, isMeta)
    ensures forall l :: l in entries <==> l in lines && l != "" && isMeta(l) == Some(false)
  {
    entries := [];
    for i := 0 to |lines|
      invariant entries == Kept(lines[..i], isMeta)
    {
      var line := lines[i];
      assert lines[..i + 1] == lines[..i] + [line];
      if line != "" {
        var meta := isMeta(line);
        if meta.Some? && !meta.value { entries := entries + [line]; }
      }
    }
    assert lines[..|lines|] == lines;
  }

  method GetHistory(pages: seq<Result<seq<Key>>>, read: Key -> Result<seq<Entry>>) returns (r: Result<seq<Entry>>)
    ensures var listed := Fetched(pages);
            r == if listed.Err? then Err(listed.error) else ReadAll(read, Sort(Filter(listed.value, IsPart)))
  {
    var listed := ListParts(pages, IsPart);
    if listed.Err? { return Err(listed.error); }
    var partKeys := Sort(listed.value);
    var entries: seq<Entry> := [];
    for i := 0 to |partKeys|
      invariant ReadAll(read, partKeys[..i]) == Ok(entries)
    {
      assert partKeys[..i + 1] == partKeys[..i] + [partKeys[i]];
      var part := read(partKeys[i]);
      if part.Err? {
        assert partKeys == partKeys[..i + 1] + partKeys[i + 1..];
        ReadAllAppend(read, partKeys[..i + 1], partKeys[i + 1..]);
        return Err(part.error);
      }
      entries := entries + part.value;
    }
    assert partKeys[..|partKeys|] == partKeys;
    r := Ok(entries);
  }

  /* ---- the concurrent download ---- */

  lemma {:induction false} AllGood(read: Key -> Result<seq<Entry>>, keys: seq<Key>)
    ensures ReadAll(read, keys).Ok? <==> forall k <- keys :: read(k).Ok?
  {
    if keys != [] {
      AllGood(read, keys[..|keys| - 1]);
      if forall k <- keys[..|keys| - 1] :: read(k).Ok? {
        assert forall k <- keys :: k in keys[..|keys| - 1] || k == keys[|keys| - 1];
      }
      if forall k <- keys :: read(k).Ok? {
        assert forall k <- keys[..|keys| - 1] :: k in keys;
      }
      assert keys[|keys| - 1] in keys;
    }
  }

  // The download in progress: keys handed out so far, semaphore slots taken, the workers by phase, and
  // the first error reported.
  datatype Pool = Pool(next: nat, slots: nat, reading: set<nat>, stored: set<nat>, released: set<nat>,
                       results: seq<Result<seq<Entry>>>, failure: Option<string>)

  predicate Idle(p: Pool, i: nat) { i !in p.reading && i !in p.stored && i !in p.released }

  ghost predicate PoolOk(p: Pool, read: Key -> Result<seq<Entry>>, keys: seq<Key>) {
    && p.next <= |keys| == |p.results|
    && (forall i :: i in p.reading || i in p.stored || i in p.released ==> i < p.next)
    && p.reading !! p.stored && p.reading !! p.released && p.stored !! p.released
    && p.slots == |p.reading| + |p.stored| <= MAX_CONCURRENT
    && (forall i :: 0 <= i < p.next && i !in p.reading ==>
          p.results[i] == read(keys[i]) || (p.failure.Some? && p.results[i].Err?))
    && (p.failure.None? ==> forall i :: 0 <= i < p.next && Idle(p, i) ==> p.results[i].Ok?)
    && (p.failure.Some? ==> exists k :: k in keys && read(k).Err?)
  }

  function Work(p: Pool, n: nat): int { 4 * (n - p.next) + 3 * |p.reading| + 2 * |p.stored| + |p.released| }

  function Start(p: Pool): Pool {
    p.(slots := p.slots + 1, reading := p.reading + {p.next}, next := p.next + 1)
  }

  function Store(p: Pool, i: nat, r: Result<seq<Entry>>): Pool
    requires i < |p.results|
  {
    p.(results := p.results[i := r], reading := p.reading - {i}, stored := p.stored + {i})
  }

  function Release(p: Pool, i: nat): Pool
    requires p.slots > 0
  {
    p.(slots := p.slots - 1, stored := p.stored - {i}, released := p.released + {i})
  }

  function Report(p: Pool, i: nat): Pool
    requires i < |p.results|
  {
    var r := p.results[i];
    p.(released := p.released - {i}, failure := if r.Err? && p.failure.None? then Some(r.error) else p.failure)
  }

  lemma StartOk(p: Pool, read: Key -> Result<seq<Entry>>, keys: seq<Key>)
    requires PoolOk(p, read, keys) && p.next < |keys| && p.slots < MAX_CONCURRENT
    ensures PoolOk(Start(p), read, keys) && Work(Start(p), |keys|) < Work(p, |keys|)
  {
    assert p.next !in p.reading && |p.reading + {p.next}| == |p.reading| + 1;
  }

  lemma StoreOk(p: Pool, i: nat, r: Result<seq<Entry>>, read: Key -> Result<seq<Entry>>, keys: seq<Key>)
    requires PoolOk(p, read, keys) && i in p.reading
    requires r == read(keys[i]) || (p.failure.Some? && r.Err?)
    ensures PoolOk(Store(p, i, r), read, keys) && Work(Store(p, i, r), |keys|) < Work(p, |keys|)
  {
    assert |p.reading - {i}| == |p.reading| - 1 && |p.stored + {i}| == |p.stored| + 1;
  }

  lemma ReleaseOk(p: Pool, i: nat, read: Key -> Result<seq<Entry>>, keys: seq<Key>)
    requires PoolOk(p, read, keys) && i in p.stored
    ensures p.slots > 0
    ensures PoolOk(Release(p, i), read, keys) && Work(Release(p, i), |keys|) < Work(p, |keys|)
  {
    assert |p.stored - {i}| == |p.stored| - 1 && |p.released + {i}| == |p.released| + 1;
  }

  lemma ReportOk(p: Pool, i: nat, read: Key -> Result<seq<Entry>>, keys: seq<Key>)
    requires PoolOk(p, read, keys) && i in p.released
    ensures PoolOk(Report(p, i), read, keys) && Work(Report(p, i), |keys|) < Work(p, |keys|)
  {
    assert |p.released - {i}| == |p.released| - 1;
    assert keys[i] in keys;
  }

  // Every schedule of the workers: each turn some enabled step is taken, and one always is. A worker
  // reads, stores its result, gives its slot back, then reports; after the first reported error, reads
  // still running may be cut off. peak is the largest number of reads that ran at once.
  method Download(read: Key -> Result<seq<Entry>>, keys: seq<Key>) returns (r: Result<seq<Entry>>, peak: nat)
    ensures peak <= MAX_CONCURRENT
    ensures (forall k <- keys :: read(k).Ok?) ==> r == ReadAll(read, keys) && r.Ok?
    ensures !(forall k <- keys :: read(k).Ok?) ==> r.Err?
  {
    var n := |keys|;
    var p := Pool(0, 0, {}, {}, {}, seq(n, _ => Ok([])), None);
    peak := 0;
    while p.next < n || p.reading != {} || p.stored != {} || p.released != {}
      invariant PoolOk(p, read, keys) && peak <= MAX_CONCURRENT
      decreases Work(p, n)
    {
      if
      case p.next < n && p.slots < MAX_CONCURRENT =>
        StartOk(p, read, keys);
        p := Start(p);
        peak := if peak < |p.reading| then |p.reading| else peak;
      case p.reading != {} =>
        var i :| i in p.reading;
        var cutOff: bool := *;
        var got := if p.failure.Some? && cutOff then Err("context canceled") else read(keys[i]);
        StoreOk(p, i, got, read, keys);
        p := Store(p, i, got);
      case p.stored != {} =>
        var i :| i in p.stored;
        ReleaseOk(p, i, read, keys);
        p := Release(p, i);
      case p.released != {} =>
        var i :| i in p.released;
        ReportOk(p, i, read, keys);
        p := Report(p, i);
    }
    AllGood(read, keys);
    if p.failure.Some? { return Err(p.failure.value), peak; }
    forall i | 0 <= i < n ensures p.results[i] == read(keys[i]) && read(keys[i]).Ok? { assert Idle(p, i); }
    r := Merge(read, keys, p.results);
  }

  method Merge(ghost read: Key -> Result<seq<Entry>>, ghost keys: seq<Key>, results: seq<Result<seq<Entry>>>)
    returns (r: Result<seq<Entry>>)
    requires |results| == |keys| && forall i :: 0 <= i < |keys| ==> results[i] == read(keys[i]) && results[i].Ok?
    ensures r == ReadAll(read, keys) && r.Ok?
  {
    var entries: seq<Entry> := [];
    for i := 0 to |results|
      invariant ReadAll(read, keys[..i]) == Ok(entries)
    {
      assert keys[..i + 1] == keys[..i] + [keys[i]];
      entries := entries + results[i].value;
    }
    assert keys[..|results|] == keys;
    r := Ok(entries);
  }

  // All sessions at once: the entries of ListHistory and GetHistory put together, for any pagination of
  // an ascending listing without stray keys; an error if and only if some part cannot be read.
  method GetAllHistory(ghost bucket: seq<Key>, prefix: Key, pages: seq<Result<seq<Key>>>,
                       read: Key -> Result<seq<Entry>>)
    returns (r: Result<seq<Entry>>, peak: nat)
    requires Ascending(bucket)
    requires Fetched(pages).Ok? ==> Fetched(pages).value == Listing(bucket, prefix)
    ensures peak <= MAX_CONCURRENT
    ensures Fetched(pages).Err? ==> r.Err?
    ensures Fetched(pages).Ok? && (forall k <- Listing(bucket, prefix) :: !Stray(prefix, k)) ==>
              var twoPass := ReadSessions(read, bucket, Sessions(prefix, Listing(bucket, prefix)));
              if twoPass.Ok? then r == twoPass else r.Err?
    ensures Fetched(pages).Ok? ==>
              var direct := ReadAll(read, AllParts(bucket, prefix));
              if direct.Ok? then r == direct else r.Err?
  {
    var listed := ListParts(pages, IsPartBase);
    if listed.Err? { return Err(listed.error), 0; }
    ghost var keys := AllParts(bucket, prefix);
    AllGood(read, keys);
    if forall k <- Listing(bucket, prefix) :: !Stray(prefix, k) { OneListingIsTwoPass(read, bucket, prefix); }
    if |listed.value| == 0 {
      assert keys == [];
      return Ok([]), 0;
    }
    r, peak := Download(read, Sort(listed.value));
  }
}
