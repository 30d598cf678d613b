/** Where a task's history lies in the object store and how it is read: the two-pass form (list the
    sessions, then read each) and the one-listing form over all sessions. */
module History {
  import opened Wrappers
  import opened Sequences
  import opened Paths

  type Key = string
  type Entry = string

  /* ---- key order: byte order, which for UTF-8 is code-point order ---- */

  predicate LexLeq(a: Key, b: Key) {
    a == "" || (b != "" && (a[0] < b[0] || (a[0] == b[0] && LexLeq(a[1..], b[1..]))))
  }

  predicate Ascending(keys: seq<Key>) {
    forall i, j :: 0 <= i < j < |keys| ==> LexLeq(keys[i], keys[j]) && keys[i] != keys[j]
  }

  // Keys between two keys with a common prefix have that prefix too.
  lemma {:induction false} PrefixBlock(p: Key, a: Key, b: Key, c: Key)
    requires p <= a && p <= c && LexLeq(a, b) && LexLeq(b, c)
    ensures p <= b
  {
    if p != "" {
      assert a[0] == p[0] == c[0];
      PrefixBlock(p[1..], a[1..], b[1..], c[1..]);
    }
  }

  lemma {:induction false} LexTotal(a: Key, b: Key)
    ensures LexLeq(a, b) || LexLeq(b, a)
    ensures LexLeq(a, b) && LexLeq(b, a) ==> a == b
  {
    if a != "" && b != "" && a[0] == b[0] {
      LexTotal(a[1..], b[1..]);
      assert a == [a[0]] + a[1..] && b == [b[0]] + b[1..];
    }
  }

  lemma {:induction false} LexTransitive(a: Key, b: Key, c: Key)
    requires LexLeq(a, b) && LexLeq(b, c)
    ensures LexLeq(a, c)
  {
    if a != "" && a[0] == b[0] && b[0] == c[0] { LexTransitive(a[1..], b[1..], c[1..]); }
  }

  /* ---- sort.Strings ---- */

  predicate Sorted(keys: seq<Key>) {
    forall i, j :: 0 <= i < j < |keys| ==> LexLeq(keys[i], keys[j])
  }

  function Insert(k: Key, keys: seq<Key>): seq<Key> {
    if keys == [] then [k]
    else if LexLeq(keys[|keys| - 1], k) then keys + [k]
    else Insert(k, keys[..|keys| - 1]) + [keys[|keys| - 1]]
  }

  function Sort(keys: seq<Key>): seq<Key> {
    if keys == [] then [] else Insert(keys[|keys| - 1], Sort(keys[..|keys| - 1]))
  }

  lemma SortedPush(keys: seq<Key>, k: Key)
    requires Sorted(keys) && forall x <- keys :: LexLeq(x, k)
    ensures Sorted(keys + [k])
  {
  }

  lemma {:induction false} InsertSorts(k: Key, keys: seq<Key>)
    requires Sorted(keys)
    ensures Sorted(Insert(k, keys)) && multiset(Insert(k, keys)) == multiset(keys) + multiset{k}
  {
    if keys != [] {
      var init, last := keys[..|keys| - 1], keys[|keys| - 1];
      assert keys == init + [last];
      if LexLeq(last, k) {
        forall x | x in keys ensures LexLeq(x, k) {
          var i :| 0 <= i < |keys| && keys[i] == x;
          if i < |keys| - 1 { LexTransitive(x, last, k); }
        }
        SortedPush(keys, k);
      } else {
        LexTotal(k, last);
        InsertSorts(k, init);
        forall x | x in Insert(k, init) ensures LexLeq(x, last) {
          assert x in multiset(Insert(k, init));
          if x != k { assert x in multiset(init) && x in init; }
        }
        SortedPush(Insert(k, init), last);
      }
    }
  }

  lemma InitAndLast(keys: seq<Key>)
    requires keys != []
    ensures multiset(keys) == multiset(keys[..|keys| - 1]) + multiset{keys[|keys| - 1]}
  {
    assert keys == keys[..|keys| - 1] + [keys[|keys| - 1]];
  }

  lemma {:induction false} SortSorts(keys: seq<Key>)
    ensures Sorted(Sort(keys)) && multiset(Sort(keys)) == multiset(keys)
  {
    if keys != [] {
      var init, last := keys[..|keys| - 1], keys[|keys| - 1];
      SortSorts(init);
      InsertSorts(last, Sort(init));
      InitAndLast(keys);
    }
  }

  lemma {:induction false} SortSorted(keys: seq<Key>)
    requires Sorted(keys)
    ensures Sort(keys) == keys
  {
    if keys != [] {
      var init, last := keys[..|keys| - 1], keys[|keys| - 1];
      SortSorted(init);
      assert init != [] ==> LexLeq(init[|init| - 1], last);
      assert init + [last] == keys;
    }
  }

  /* ---- names of part files and sessions ---- */

  predicate EndsWith(k: Key, suffix: string) {
    |suffix| <= |k| && k[|k| - |suffix|..] == suffix
  }

  predicate IsPart(k: Key) { EndsWith(k, ".ndjson") || EndsWith(k, ".jsonl") }

  function TrimSlashes(k: Key): Key {
    if k != "" && k[|k| - 1] == '/' then TrimSlashes(k[..|k| - 1]) else k
  }

  function AfterLastSlash(k: Key): Key {
    if k == "" || k[|k| - 1] == '/' then "" else AfterLastSlash(k[..|k| - 1]) + [k[|k| - 1]]
  }

  // path.Base
  function Base(k: Key): Key {
    if k == "" then "."
    else if TrimSlashes(k) == "" then "/"
    else AfterLastSlash(TrimSlashes(k))
  }

  predicate IsPartBase(k: Key) { IsPart(Base(k)) }

  lemma {:induction false} AfterLastSlashAppend(k: Key, suffix: string)
    requires '/' !in suffix
    ensures AfterLastSlash(k + suffix) == AfterLastSlash(k) + suffix
  {
    if suffix == "" {
      assert k + suffix == k;
    } else {
      var s, x := suffix[..|suffix| - 1], suffix[|suffix| - 1];
      assert x in suffix;
      AfterLastSlashAppend(k, s);
      var all := k + suffix;
      assert all[..|all| - 1] == k + s && all[|all| - 1] == x;
    }
  }

  lemma SlashlessSuffix(k: Key, suffix: string)
    requires EndsWith(k, suffix) && '/' !in suffix && suffix != ""
    ensures Base(k) == AfterLastSlash(k) && EndsWith(Base(k), suffix)
  {
    var stem := k[..|k| - |suffix|];
    assert k == stem + suffix;
    AfterLastSlashAppend(stem, suffix);
    assert k[|k| - 1] == suffix[|suffix| - 1] && suffix[|suffix| - 1] in suffix;
  }

  // A part file by its full key is one by its base name.
  lemma PartHasPartBase(k: Key)
    requires IsPart(k)
    ensures IsPartBase(k)
  {
    if EndsWith(k, ".ndjson") { SlashlessSuffix(k, ".ndjson"); }
    if EndsWith(k, ".jsonl") { SlashlessSuffix(k, ".jsonl"); }
  }

  predicate HasSession(prefix: Key, k: Key) { prefix <= k && '/' in k[|prefix|..] }

  // The key prefix of the session directory of a key.
  function SessionOf(prefix: Key, k: Key): Key
    requires HasSession(prefix, k)
  {
    prefix + UpToSlash(k[|prefix|..])
  }

  lemma {:induction false} UpToSlashPrefix(r: string, x: string)
    requires '/' in r
    ensures UpToSlash(r) <= x <==> ('/' in x && UpToSlash(x) == UpToSlash(r))
  {
    if r[0] == '/' {
      assert x != "" && x[0] != '/' ==> UpToSlash(x)[0] == x[0];
    } else if x == "" {
    } else {
      assert r == [r[0]] + r[1..] && x == [x[0]] + x[1..];
      assert '/' in r[1..];
      UpToSlashPrefix(r[1..], x[1..]);
      var u := UpToSlash(r[1..]);
      assert [r[0]] + u <= [x[0]] + x[1..] <==> r[0] == x[0] && u <= x[1..] by {
        if [r[0]] + u <= [x[0]] + x[1..] {
          assert ([r[0]] + u)[1..] == u && ([x[0]] + x[1..])[1..] == x[1..];
          assert ([x[0]] + x[1..])[..|u| + 1] == [r[0]] + u;
          assert x[1..][..|u|] == ([x[0]] + x[1..])[..|u| + 1][1..];
        }
      }
      if x[0] == '/' { assert UpToSlash(x) == "/"; }
      if [r[0]] + u == [x[0]] + UpToSlash(x[1..]) {
        assert ([r[0]] + u)[1..] == ([x[0]] + UpToSlash(x[1..]))[1..];
      }
    }
  }

  // A key lies under a session prefix exactly when that is its own session.
  lemma UnderSession(prefix: Key, k: Key, x: Key)
    requires HasSession(prefix, k)
    ensures prefix <= SessionOf(prefix, k)
    ensures SessionOf(prefix, k) <= x <==> (HasSession(prefix, x) && SessionOf(prefix, x) == SessionOf(prefix, k))
  {
    var u, g := UpToSlash(k[|prefix|..]), SessionOf(prefix, k);
    assert g[..|prefix|] == prefix && g[|prefix|..] == u;
    if prefix <= x {
      UpToSlashPrefix(k[|prefix|..], x[|prefix|..]);
      if g <= x { assert x[|prefix|..][..|u|] == x[..|g|][|prefix|..]; }
      if u <= x[|prefix|..] { assert x[..|g|] == prefix + u; }
      if HasSession(prefix, x) && SessionOf(prefix, x) == g {
        assert SessionOf(prefix, x)[|prefix|..] == UpToSlash(x[|prefix|..]);
      }
    }
  }

  /* ---- listings ---- */

  // What ListObjectsV2 returns for a prefix, pages put together.
  function Listing(bucket: seq<Key>, prefix: Key): seq<Key> {
    Filter(bucket, k => prefix <= k)
  }

  // The session prefixes of a listing in order of first appearance.
  function Sessions(prefix: Key, keys: seq<Key>): seq<Key> {
    if keys == [] then []
    else
      var ss, k := Sessions(prefix, keys[..|keys| - 1]), keys[|keys| - 1];
      if HasSession(prefix, k) && SessionOf(prefix, k) !in ss then ss + [SessionOf(prefix, k)] else ss
  }

  // The part keys GetHistory reads for one session, and GetAllHistory for the whole task.
  function SessionParts(bucket: seq<Key>, session: Key): seq<Key> {
    Sort(Filter(Listing(bucket, session), IsPart))
  }

  function AllParts(bucket: seq<Key>, prefix: Key): seq<Key> {
    Sort(Filter(Listing(bucket, prefix), IsPartBase))
  }

  lemma {:induction false} TrimIsSuffix(k: Key, suffix: string)
    requires '/' !in suffix && suffix != ""
    ensures EndsWith(Base(k), suffix) ==> EndsWith(TrimSlashes(k), suffix) || EndsWith("/", suffix) || k == ""
    ensures EndsWith(TrimSlashes(k), suffix) ==> EndsWith(Base(k), suffix)
  {
    TrimmedEnd(k);
    if TrimSlashes(k) != "" {
      var t := TrimSlashes(k);
      NameEndsKey(t);
      if EndsWith(t, suffix) { SlashlessSuffix(t, suffix); }
    }
  }

  lemma {:induction false} TrimmedEnd(k: Key)
    ensures TrimSlashes(k) != "" ==> TrimSlashes(k)[|TrimSlashes(k)| - 1] != '/'
    ensures TrimSlashes(TrimSlashes(k)) == TrimSlashes(k)
  {
    if k != "" && k[|k| - 1] == '/' { TrimmedEnd(k[..|k| - 1]); }
  }

  lemma {:induction false} NameEndsKey(k: Key)
    ensures EndsWith(k, AfterLastSlash(k))
  {
    if k != "" && k[|k| - 1] != '/' {
      NameEndsKey(k[..|k| - 1]);
      assert k == k[..|k| - 1] + [k[|k| - 1]];
    }
  }

  // The parts of a session are the listed keys under it that end in one of the two suffixes; those of a task may
  // end in slashes after it.
  lemma PartsAre(bucket: seq<Key>, prefix: Key, k: Key)
    ensures k in SessionParts(bucket, prefix) <==>
              k in bucket && prefix <= k && (EndsWith(k, ".ndjson") || EndsWith(k, ".jsonl"))
    ensures k in AllParts(bucket, prefix) <==>
              k in bucket && prefix <= k && (EndsWith(TrimSlashes(k), ".ndjson") || EndsWith(TrimSlashes(k), ".jsonl"))
  {
    SortKeeps(Filter(Listing(bucket, prefix), IsPart), k);
    SortKeeps(Filter(Listing(bucket, prefix), IsPartBase), k);
    TrimIsSuffix(k, ".ndjson");
    TrimIsSuffix(k, ".jsonl");
  }

  lemma SortKeeps(keys: seq<Key>, k: Key)
    ensures k in Sort(keys) <==> k in keys
  {
    SortSorts(keys);
    assert k in multiset(Sort(keys)) <==> k in multiset(keys);
  }

  function TwoPassParts(bucket: seq<Key>, sessions: seq<Key>): seq<Key> {
    if sessions == [] then []
    else TwoPassParts(bucket, sessions[..|sessions| - 1]) + SessionParts(bucket, sessions[|sessions| - 1])
  }

  lemma {:induction false} FilterAscending(keys: seq<Key>, p: Key -> bool)
    requires Ascending(keys)
    ensures Ascending(Filter(keys, p)) && Sorted(Filter(keys, p))
  {
    if keys != [] {
      var init := keys[..|keys| - 1];
      FilterAscending(init, p);
      var f, last := Filter(init, p), keys[|keys| - 1];
      forall i | 0 <= i < |f| ensures LexLeq(f[i], last) && f[i] != last {
        assert f[i] in f;
        var j :| 0 <= j < |init| && init[j] == f[i];
        assert keys[j] == f[i];
      }
    }
  }

  /* ---- sessions occupy contiguous blocks ---- */

  lemma {:induction false} SessionsAre(prefix: Key, keys: seq<Key>)
    ensures forall g <- Sessions(prefix, keys) ::
              exists k :: k in keys && HasSession(prefix, k) && SessionOf(prefix, k) == g
    ensures forall k <- keys :: HasSession(prefix, k) ==> SessionOf(prefix, k) in Sessions(prefix, keys)
    ensures forall i, j :: 0 <= i < j < |Sessions(prefix, keys)| ==>
              Sessions(prefix, keys)[i] != Sessions(prefix, keys)[j]
  {
    if keys != [] {
      var init := keys[..|keys| - 1];
      SessionsAre(prefix, init);
      forall g | g in Sessions(prefix, keys)
        ensures exists k :: k in keys && HasSession(prefix, k) && SessionOf(prefix, k) == g
      {
        if g in Sessions(prefix, init) {
          var k :| k in init && HasSession(prefix, k) && SessionOf(prefix, k) == g;
          assert k in keys;
        } else {
          assert keys[|keys| - 1] in keys;
        }
      }
    }
  }

  lemma AscendingInit(keys: seq<Key>, k: Key)
    requires Ascending(keys + [k])
    ensures Ascending(keys) && forall x <- keys :: LexLeq(x, k)
  {
    var all := keys + [k];
    assert forall i :: 0 <= i < |keys| ==> all[i] == keys[i];
    forall x | x in keys ensures LexLeq(x, k) {
      var i :| 0 <= i < |keys| && keys[i] == x;
      assert LexLeq(all[i], all[|keys|]);
    }
  }

  // If the next key belongs to a session seen before, so does the key just before it.
  lemma {:induction false} ContinuesLast(prefix: Key, keys: seq<Key>, k: Key)
    requires Ascending(keys + [k]) && HasSession(prefix, k) && SessionOf(prefix, k) in Sessions(prefix, keys)
    ensures keys != [] && HasSession(prefix, keys[|keys| - 1])
    ensures SessionOf(prefix, keys[|keys| - 1]) == SessionOf(prefix, k)
  {
    AscendingInit(keys, k);
    SessionsAre(prefix, keys);
    var g := SessionOf(prefix, k);
    var x :| x in keys && HasSession(prefix, x) && SessionOf(prefix, x) == g;
    var i :| 0 <= i < |keys| && keys[i] == x;
    var last := keys[|keys| - 1];
    UnderSession(prefix, k, x);
    UnderSession(prefix, k, k);
    if i < |keys| - 1 { PrefixBlock(g, x, last, k); }
    UnderSession(prefix, k, last);
  }

  lemma {:induction false} LastIsLast(prefix: Key, keys: seq<Key>)
    requires keys != [] && Ascending(keys) && HasSession(prefix, keys[|keys| - 1])
    ensures var ss := Sessions(prefix, keys); ss != [] && ss[|ss| - 1] == SessionOf(prefix, keys[|keys| - 1])
  {
    var init, last := keys[..|keys| - 1], keys[|keys| - 1];
    assert keys == init + [last];
    if SessionOf(prefix, last) in Sessions(prefix, init) {
      ContinuesLast(prefix, init, last);
      LastIsLast(prefix, init);
    }
  }

  // The part keys of the given sessions among keys, session after session.
  function Blocks(keys: seq<Key>, sessions: seq<Key>): seq<Key> {
    if sessions == [] then []
    else Blocks(keys, sessions[..|sessions| - 1]) + Block(keys, sessions[|sessions| - 1])
  }

  function Block(keys: seq<Key>, session: Key): seq<Key> {
    Filter(keys, k => session <= k && IsPart(k))
  }

  lemma {:induction false} BlocksUntouched(keys: seq<Key>, k: Key, sessions: seq<Key>)
    requires forall g <- sessions :: !(g <= k)
    ensures Blocks(keys + [k], sessions) == Blocks(keys, sessions)
  {
    if sessions != [] {
      var init, g := sessions[..|sessions| - 1], sessions[|sessions| - 1];
      forall h | h in init ensures !(h <= k) { assert h in sessions; }
      BlocksUntouched(keys, k, init);
      assert g in sessions;
    }
  }

  lemma OtherSessions(prefix: Key, keys: seq<Key>, k: Key, sessions: seq<Key>)
    requires forall g <- sessions :: g in Sessions(prefix, keys)
    requires HasSession(prefix, k) ==> SessionOf(prefix, k) !in sessions
    ensures Blocks(keys + [k], sessions) == Blocks(keys, sessions)
  {
    SessionsAre(prefix, keys);
    forall g | g in sessions ensures !(g <= k) {
      var x :| x in keys && HasSession(prefix, x) && SessionOf(prefix, x) == g;
      UnderSession(prefix, x, k);
    }
    BlocksUntouched(keys, k, sessions);
  }

  // The sessions before the one that k continues.
  lemma ContinuedSession(prefix: Key, keys: seq<Key>, k: Key) returns (before: seq<Key>)
    requires Ascending(keys + [k]) && HasSession(prefix, k) && SessionOf(prefix, k) in Sessions(prefix, keys)
    ensures Sessions(prefix, keys) == before + [SessionOf(prefix, k)] && SessionOf(prefix, k) !in before
  {
    ContinuesLast(prefix, keys, k);
    AscendingInit(keys, k);
    LastIsLast(prefix, keys);
    SessionsAre(prefix, keys);
    before := Sessions(prefix, keys)[..|Sessions(prefix, keys)| - 1];
  }

  lemma {:induction false} BlocksContinue(prefix: Key, keys: seq<Key>, k: Key)
    requires Ascending(keys + [k]) && HasSession(prefix, k) && SessionOf(prefix, k) in Sessions(prefix, keys)
    ensures var ss := Sessions(prefix, keys);
            Blocks(keys + [k], ss) == Blocks(keys, ss) + if IsPart(k) then [k] else []
  {
    var g := SessionOf(prefix, k);
    var before := ContinuedSession(prefix, keys, k);
    OtherSessions(prefix, keys, k, before);
    UnderSession(prefix, k, k);
  }

  lemma BlocksOpen(prefix: Key, keys: seq<Key>, k: Key)
    requires HasSession(prefix, k) && SessionOf(prefix, k) !in Sessions(prefix, keys)
    ensures var ss, g := Sessions(prefix, keys), SessionOf(prefix, k);
            Blocks(keys + [k], ss + [g]) == Blocks(keys, ss) + if IsPart(k) then [k] else []
  {
    var ss, g := Sessions(prefix, keys), SessionOf(prefix, k);
    UnderSession(prefix, k, k);
    OtherSessions(prefix, keys, k, ss);
    BlockIsNew(prefix, keys, k);
  }

  // One more key: it ends the last block or opens a new one.
  lemma BlocksNext(prefix: Key, keys: seq<Key>, k: Key)
    requires Ascending(keys + [k])
    ensures Blocks(keys + [k], Sessions(prefix, keys + [k])) ==
              Blocks(keys, Sessions(prefix, keys)) + if HasSession(prefix, k) && IsPart(k) then [k] else []
  {
    if !HasSession(prefix, k) {
      OtherSessions(prefix, keys, k, Sessions(prefix, keys));
    } else if SessionOf(prefix, k) in Sessions(prefix, keys) {
      BlocksContinue(prefix, keys, k);
    } else {
      BlocksOpen(prefix, keys, k);
    }
  }

  // Reading session by session visits the part keys of the listing in listing order.
  lemma {:induction false} BlocksInOrder(prefix: Key, keys: seq<Key>)
    requires Ascending(keys)
    ensures Blocks(keys, Sessions(prefix, keys)) == Filter(keys, k => HasSession(prefix, k) && IsPart(k))
  {
    if keys != [] {
      var init, k := keys[..|keys| - 1], keys[|keys| - 1];
      assert keys == init + [k];
      BlocksInOrder(prefix, init);
      BlocksNext(prefix, init, k);
      FilterPush(init, k, k => HasSession(prefix, k) && IsPart(k));
    }
  }

  lemma {:induction false} BlockIsNew(prefix: Key, keys: seq<Key>, k: Key)
    requires HasSession(prefix, k) && SessionOf(prefix, k) !in Sessions(prefix, keys)
    ensures Block(keys, SessionOf(prefix, k)) == []
  {
    SessionsAre(prefix, keys);
    var b := Block(keys, SessionOf(prefix, k));
    if b != [] {
      assert b[0] in b;
      UnderSession(prefix, k, b[0]);
    }
  }

  /* ---- the two forms read the same keys ---- */

  lemma SessionPartsAreBlock(bucket: seq<Key>, prefix: Key, session: Key)
    requires Ascending(bucket) && prefix <= session
    ensures SessionParts(bucket, session) == Block(Listing(bucket, prefix), session)
  {
    var inSession, inTask := (k: Key) => session <= k, (k: Key) => prefix <= k;
    var part := (k: Key) => session <= k && IsPart(k);
    FilterAscending(bucket, inSession);
    FilterAscending(Listing(bucket, session), IsPart);
    assert Listing(bucket, session) == Filter(bucket, inSession);
    SortSorted(Filter(Listing(bucket, session), IsPart));
    FilterTwice(bucket, inSession, IsPart, part);
    forall k | k in bucket ensures part(k) == (inTask(k) && part(k)) {
      if session <= k { assert k[..|prefix|] == k[..|session|][..|prefix|]; }
    }
    FilterTwice(bucket, inTask, part, part);
    FilterSame(Listing(bucket, prefix), part, k => session <= k && IsPart(k));
  }

  lemma {:induction false} TwoPassIsBlocks(bucket: seq<Key>, prefix: Key, sessions: seq<Key>)
    requires Ascending(bucket) && forall g <- sessions :: prefix <= g
    ensures TwoPassParts(bucket, sessions) == Blocks(Listing(bucket, prefix), sessions)
  {
    if sessions != [] {
      var init := sessions[..|sessions| - 1];
      forall g | g in init ensures prefix <= g { assert g in sessions; }
      TwoPassIsBlocks(bucket, prefix, init);
      assert sessions[|sessions| - 1] in sessions;
      SessionPartsAreBlock(bucket, prefix, sessions[|sessions| - 1]);
    }
  }

  // A key that the one-listing form picks, but that no session directory holds as a part file.
  predicate Stray(prefix: Key, k: Key) {
    IsPartBase(k) && !(HasSession(prefix, k) && IsPart(k))
  }

  // Main result: for every bucket, the one-listing form reads the part keys that the two-pass form reads,
  // in the same order, exactly when the listing has no stray key.
  lemma {:induction false} SamePartsExactly(bucket: seq<Key>, prefix: Key)
    requires Ascending(bucket)
    ensures var keys := Listing(bucket, prefix);
            AllParts(bucket, prefix) == TwoPassParts(bucket, Sessions(prefix, keys)) <==>
            forall k <- keys :: !Stray(prefix, k)
  {
    var keys := Listing(bucket, prefix);
    FilterAscending(bucket, k => prefix <= k);
    SessionsAre(prefix, keys);
    forall g | g in Sessions(prefix, keys) ensures prefix <= g {
      var k :| k in keys && HasSession(prefix, k) && SessionOf(prefix, k) == g;
      UnderSession(prefix, k, k);
    }
    TwoPassIsBlocks(bucket, prefix, Sessions(prefix, keys));
    BlocksInOrder(prefix, keys);
    FilterAscending(keys, IsPartBase);
    SortSorted(Filter(keys, IsPartBase));
    var narrow := (k: Key) => HasSession(prefix, k) && IsPart(k);
    forall k | k in keys && narrow(k) ensures IsPartBase(k) { PartHasPartBase(k); }
    FilterSame(keys, narrow, k => HasSession(prefix, k) && IsPart(k));
    FilterEqual(keys, narrow, IsPartBase);
  }

  /* ---- contents ---- */

  // Parts one after the other; the first failure is the result.
  function ReadAll(read: Key -> Result<seq<Entry>>, keys: seq<Key>): Result<seq<Entry>> {
    if keys == [] then Ok([])
    else
      var before := ReadAll(read, keys[..|keys| - 1]);
      if before.Err? then before
      else
        match read(keys[|keys| - 1])
        case Err(e) => Err(e)
        case Ok(part) => Ok(before.value + part)
  }

  // GetHistory of each session, put together; the first failure is the result.
  function ReadSessions(read: Key -> Result<seq<Entry>>, bucket: seq<Key>, sessions: seq<Key>): Result<seq<Entry>> {
    if sessions == [] then Ok([])
    else
      var before := ReadSessions(read, bucket, sessions[..|sessions| - 1]);
      if before.Err? then before
      else
        match ReadAll(read, SessionParts(bucket, sessions[|sessions| - 1]))
        case Err(e) => Err(e)
        case Ok(entries) => Ok(before.value + entries)
  }

  lemma {:induction false} ReadAllAppend(read: Key -> Result<seq<Entry>>, a: seq<Key>, b: seq<Key>)
    ensures ReadAll(read, a + b) ==
              var first, second := ReadAll(read, a), ReadAll(read, b);
              if first.Err? then first else if second.Err? then second else Ok(first.value + second.value)
  {
    if b == [] {
      assert a + b == a;
      assert ReadAll(read, a).Ok? ==> ReadAll(read, a).value + [] == ReadAll(read, a).value;
    } else {
      var init, k := b[..|b| - 1], b[|b| - 1];
      ReadAllAppend(read, a, init);
      assert a + b == (a + init) + [k];
      if ReadAll(read, a).Ok? && ReadAll(read, init).Ok? && read(k).Ok? {
        assert (ReadAll(read, a).value + ReadAll(read, init).value) + read(k).value
            == ReadAll(read, a).value + (ReadAll(read, init).value + read(k).value);
      }
    }
  }

  lemma {:induction false} SessionsRead(read: Key -> Result<seq<Entry>>, bucket: seq<Key>, sessions: seq<Key>)
    ensures ReadSessions(read, bucket, sessions) == ReadAll(read, TwoPassParts(bucket, sessions))
  {
    if sessions != [] {
      var init := sessions[..|sessions| - 1];
      SessionsRead(read, bucket, init);
      ReadAllAppend(read, TwoPassParts(bucket, init), SessionParts(bucket, sessions[|sessions| - 1]));
    }
  }

  // The one-listing history is GetHistory over ListHistory, whatever the parts hold and whichever fail.
  lemma {:induction false} OneListingIsTwoPass(read: Key -> Result<seq<Entry>>, bucket: seq<Key>, prefix: Key)
    requires Ascending(bucket) && forall k <- Listing(bucket, prefix) :: !Stray(prefix, k)
    ensures ReadAll(read, AllParts(bucket, prefix))
         == ReadSessions(read, bucket, Sessions(prefix, Listing(bucket, prefix)))
  {
    SamePartsExactly(bucket, prefix);
    SessionsRead(read, bucket, Sessions(prefix, Listing(bucket, prefix)));
  }

  /* ---- where a task's history lies ---- */

  function EncodeCwd(path: string): string {
    if path == "" then ""
    else EncodeCwd(path[..|path| - 1]) + [if path[|path| - 1] == '/' then '-' else path[|path| - 1]]
  }

  function HistoryPrefix(username: string, taskId: string): Key {
    username + "/" + ("history/" + (EncodeCwd("/workspace/" + username + "/" + taskId) + "/"))
  }

  lemma {:induction false} EncodeCwdShape(a: string)
    ensures |EncodeCwd(a)| == |a| && '/' !in EncodeCwd(a)
  {
    if a != "" { EncodeCwdShape(a[..|a| - 1]); }
  }

  // Every slash becomes a dash, and nothing else changes.
  lemma {:induction false} EncodeCwdAt(a: string, i: nat)
    requires i < |a|
    ensures |EncodeCwd(a)| == |a| && EncodeCwd(a)[i] == if a[i] == '/' then '-' else a[i]
  {
    EncodeCwdShape(a[..|a| - 1]);
    if i < |a| - 1 { EncodeCwdAt(a[..|a| - 1], i); }
  }

  lemma {:induction false} EncodeCwdAppend(a: string, b: string)
    requires '/' !in b
    ensures EncodeCwd(a + b) == EncodeCwd(a) + b
  {
    if b == "" {
      assert a + b == a;
    } else {
      var c, x := b[..|b| - 1], b[|b| - 1];
      assert x in b;
      EncodeCwdAppend(a, c);
      assert (a + b)[..|a + b| - 1] == a + c;
    }
  }

  lemma EncodeThree(a: string, b: string, c: string)
    requires '/' !in a && '/' !in b && '/' !in c
    ensures EncodeCwd("/" + a + "/" + b + "/" + c) == "-" + a + "-" + b + "-" + c
  {
    assert "" + "/" == "/" && "" + "-" == "-";
    EncodeCwdAppend("/", a);
    EncodeCwdAppend("/" + a + "/", b);
    EncodeCwdAppend("/" + a + "/" + b + "/", c);
  }

  const WORKSPACE := "workspace"

  // The workspace of a task is encoded name by name.
  lemma WorkspaceIs(username: string, taskId: string)
    requires '/' !in username && '/' !in taskId
    ensures EncodeCwd("/" + WORKSPACE + "/" + username + "/" + taskId)
         == "-" + WORKSPACE + "-" + username + "-" + taskId
  {
    EncodeThree(WORKSPACE, username, taskId);
  }

  // The layout of the object store: history/ under the user, and there one directory for each workspace.
  lemma HistoryPrefixIs(username: string, taskId: string)
    requires '/' !in username && '/' !in taskId
    ensures HistoryPrefix(username, taskId) ==
              username + "/history/" + ("-" + WORKSPACE + "-" + username + "-" + taskId) + "/"
  {
    WorkspaceIs(username, taskId);
    assert "/" + WORKSPACE + "/" == "/workspace/";
    assert "/" + "history/" == "/history/";
  }

  // Although the encoding of the workspace path is not injective, no key is history of two tasks.
  lemma HistoriesDisjoint(u: string, t: string, u': string, t': string, k: Key)
    requires '/' !in u && '/' !in t && '/' !in u' && '/' !in t'
    requires HistoryPrefix(u, t) <= k && HistoryPrefix(u', t') <= k
    ensures u == u' && t == t'
  {
    var e, e' := EncodeCwd("/workspace/" + u + "/" + t), EncodeCwd("/workspace/" + u' + "/" + t');
    EncodeCwdShape("/workspace/" + u + "/" + t);
    EncodeCwdShape("/workspace/" + u' + "/" + t');
    SamePrefixSegment(u, "history/" + (e + "/"), u', "history/" + (e' + "/"), k);
    var rest := k[|u| + 1..];
    assert "history/" + (e + "/") <= rest && "history/" + (e' + "/") <= rest;
    var tail := rest[|"history/"|..];
    assert e + "/" + "" <= tail && e' + "/" + "" <= tail by {
      assert rest[..|"history/" + (e + "/")|] == "history/" + (e + "/");
      assert rest[..|"history/" + (e' + "/")|] == "history/" + (e' + "/");
      assert ("history/" + (e + "/"))[|"history/"|..] == e + "/" == tail[..|e| + 1];
      assert ("history/" + (e' + "/"))[|"history/"|..] == e' + "/" == tail[..|e'| + 1];
      assert e + "/" + "" == e + "/" && e' + "/" + "" == e' + "/";
    }
    SamePrefixSegment(e, "", e', "", tail);
    EncodeCwdAppend("/workspace/" + u + "/", t);
    EncodeCwdAppend("/workspace/" + u + "/", t');
    var w := EncodeCwd("/workspace/" + u + "/");
    assert (w + t)[|w|..] == t && (w + t')[|w|..] == t';
  }
}
