/** When the merged history is in the order of its part files' names, which carry their time stamps. */
module Chronology {
  import opened Sequences
  import opened Paths
  import opened History

  function FileName(k: Key): Key { AfterLastSlash(k) }

  lemma {:induction false} DirectoryAndName(k: Key)
    ensures Directory(k) + FileName(k) == k
  {
    if k != "" && k[|k| - 1] != '/' {
      var init, last := k[..|k| - 1], k[|k| - 1];
      DirectoryAndName(init);
      assert k == init + [last];
      assert Directory(init) + (FileName(init) + [last]) == (Directory(init) + FileName(init)) + [last];
    }
  }

  predicate ByName(keys: seq<Key>) {
    forall i, j :: 0 <= i < j < |keys| ==> LexLeq(FileName(keys[i]), FileName(keys[j]))
  }

  // From one directory to the next the names do not step back.
  predicate DirectoriesFollow(keys: seq<Key>) {
    forall i :: 0 <= i < |keys| - 1 && Directory(keys[i]) != Directory(keys[i + 1]) ==>
      LexLeq(FileName(keys[i]), FileName(keys[i + 1]))
  }

  lemma {:induction false} LexCommonPrefix(p: Key, a: Key, b: Key)
    ensures LexLeq(p + a, p + b) <==> LexLeq(a, b)
  {
    if p == "" {
      assert p + a == a && p + b == b;
    } else {
      assert (p + a)[1..] == p[1..] + a && (p + b)[1..] == p[1..] + b;
      LexCommonPrefix(p[1..], a, b);
    }
  }

  lemma {:induction false} AdjacentNames(keys: seq<Key>, i: nat, j: nat)
    requires forall k :: 0 <= k < |keys| - 1 ==> LexLeq(FileName(keys[k]), FileName(keys[k + 1]))
    requires i < j < |keys|
    ensures LexLeq(FileName(keys[i]), FileName(keys[j]))
  {
    if i + 1 < j {
      AdjacentNames(keys, i, j - 1);
      assert LexLeq(FileName(keys[j - 1]), FileName(keys[j - 1 + 1]));
      LexTransitive(FileName(keys[i]), FileName(keys[j - 1]), FileName(keys[j]));
    }
  }

  lemma SortedByNameExactly(keys: seq<Key>)
    requires Sorted(keys)
    ensures ByName(keys) <==> DirectoriesFollow(keys)
  {
    if DirectoriesFollow(keys) {
      forall i | 0 <= i < |keys| - 1 ensures LexLeq(FileName(keys[i]), FileName(keys[i + 1])) {
        var a, b := keys[i], keys[i + 1];
        assert LexLeq(a, b);
        DirectoryAndName(a);
        DirectoryAndName(b);
        if Directory(a) == Directory(b) { LexCommonPrefix(Directory(a), FileName(a), FileName(b)); }
      }
      forall i, j | 0 <= i < j < |keys| ensures LexLeq(FileName(keys[i]), FileName(keys[j])) {
        AdjacentNames(keys, i, j);
      }
    }
  }

  // Main result: for every bucket, the parts are merged in the order of their names exactly when the last name
  // of each directory is not after the first of the next.
  lemma {:induction false} ChronologicalExactly(bucket: seq<Key>, prefix: Key)
    ensures ByName(AllParts(bucket, prefix)) <==> DirectoriesFollow(AllParts(bucket, prefix))
  {
    SortSorts(Filter(Listing(bucket, prefix), IsPartBase));
    SortedByNameExactly(AllParts(bucket, prefix));
  }

  // The directory of a part file that lies directly in its session is the session's.
  lemma DirectoryIsSession(prefix: Key, k: Key)
    requires HasSession(prefix, k) && SessionOf(prefix, k) <= k && '/' !in k[|SessionOf(prefix, k)|..]
    ensures Directory(k) == SessionOf(prefix, k)
  {
    var g := SessionOf(prefix, k);
    UpToSlashEnds(k[|prefix|..]);
    assert g[|g| - 1] == '/';
    assert k == g + k[|g|..];
    DirectoryOf(g, k[|g|..]);
  }

  lemma NameOf(d: Key, name: Key)
    requires d != "" && d[|d| - 1] == '/' && '/' !in name
    ensures FileName(d + name) == name
  {
    AfterLastSlashAppend(d, name);
  }

  /* ---- sessions may overlap ---- */

  // An earlier session that was resumed after a later one began, by the names of their parts.
  function Overlap(prefix: Key): seq<Key> {
    [prefix + "a/" + "part-2.ndjson", prefix + "b/" + "part-1.ndjson"]
  }

  lemma OverlapKeys(prefix: Key)
    ensures var keys := Overlap(prefix);
            && FileName(keys[0]) == "part-2.ndjson" && FileName(keys[1]) == "part-1.ndjson"
            && IsPartBase(keys[0]) && IsPartBase(keys[1])
  {
    NameOf(prefix + "a/", "part-2.ndjson");
    NameOf(prefix + "b/", "part-1.ndjson");
    SlashlessSuffix(Overlap(prefix)[0], ".ndjson");
    SlashlessSuffix(Overlap(prefix)[1], ".ndjson");
  }

  lemma OverlapAscends(prefix: Key)
    ensures Ascending(Overlap(prefix))
  {
    var a, b := "a/" + "part-2.ndjson", "b/" + "part-1.ndjson";
    assert prefix + "a/" + "part-2.ndjson" == prefix + a && prefix + "b/" + "part-1.ndjson" == prefix + b;
    assert a[0] == 'a' && b[0] == 'b';
    LexCommonPrefix(prefix, a, b);
    assert (prefix + a)[|prefix|] != (prefix + b)[|prefix|];
  }

  lemma NamesStepBack()
    ensures !LexLeq("part-2.ndjson", "part-1.ndjson")
  {
    LexCommonPrefix("part-", "2.ndjson", "1.ndjson");
    assert "part-" + "2.ndjson" == "part-2.ndjson" && "part-" + "1.ndjson" == "part-1.ndjson";
    assert "2.ndjson"[0] == '2' && "1.ndjson"[0] == '1';
  }

  lemma PairIsListed(bucket: seq<Key>, prefix: Key)
    requires |bucket| == 2 && Ascending(bucket)
    requires prefix <= bucket[0] && prefix <= bucket[1] && IsPartBase(bucket[0]) && IsPartBase(bucket[1])
    ensures AllParts(bucket, prefix) == bucket
  {
    KeepBoth(bucket, k => prefix <= k);
    KeepBoth(bucket, IsPartBase);
    SortSorted(bucket);
  }

  lemma KeepBoth(keys: seq<Key>, p: Key -> bool)
    requires |keys| == 2 && p(keys[0]) && p(keys[1])
    ensures Filter(keys, p) == keys
  {
    FilterPush([], keys[0], p);
    FilterPush([keys[0]], keys[1], p);
    assert [] + [keys[0]] == [keys[0]] && [keys[0]] + [keys[1]] == keys;
  }

  // Their merged history is not in the order of the names.
  lemma OverlapBreaksOrder(prefix: Key)
    ensures Ascending(Overlap(prefix)) && AllParts(Overlap(prefix), prefix) == Overlap(prefix)
    ensures !ByName(AllParts(Overlap(prefix), prefix))
  {
    var keys := Overlap(prefix);
    OverlapKeys(prefix);
    OverlapAscends(prefix);
    assert prefix <= prefix + ("a/" + "part-2.ndjson") == keys[0];
    assert prefix <= prefix + ("b/" + "part-1.ndjson") == keys[1];
    PairIsListed(keys, prefix);
    NamesStepBack();
    assert !LexLeq(FileName(keys[0]), FileName(keys[1]));
  }
}
