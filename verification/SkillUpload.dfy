/** What a handler leaves behind when it runs to its end without failures: the upload, upsert and removal of
    skill files, against what the client sent. */
module SkillUpload {
  import opened Wrappers
  import opened Sequences
  import opened SkillManifest

  // The next n writes of a client, all stored.
  function Writes(s: World, c: nat, n: nat): (t: World)
    requires c < |s.clients|
    ensures |t.clients| == |s.clients|
    decreases n
  {
    if n == 0 || s.clients[c].Done? then s else Writes(Next(s, c, Stored), c, n - 1)
  }

  // The last file of a path is the one that stays.
  function LastContent(files: seq<File>, path: string): Option<Bytes> {
    if files == [] then None
    else if files[|files| - 1].path == path then Some(files[|files| - 1].content)
    else LastContent(files[..|files| - 1], path)
  }

  // The content that the files give to a key.
  function Under(ofsPath: string, files: seq<File>, key: string): Option<Bytes> {
    if ofsPath <= key then LastContent(files, key[|ofsPath|..]) else None
  }

  // before, but for the files, which lie under ofsPath with their last contents.
  ghost predicate Stores(before: map<string, Bytes>, after: map<string, Bytes>, ofsPath: string, files: seq<File>) {
    forall key :: Holds(after, key, Under(ofsPath, files, key), before)
  }

  predicate Holds(m: map<string, Bytes>, key: string, content: Option<Bytes>, otherwise: map<string, Bytes>) {
    match content
    case Some(b) => key in m && m[key] == b
    case None => (key in m <==> key in otherwise) && (key in m ==> m[key] == otherwise[key])
  }

  lemma StoresNone(m: map<string, Bytes>, ofsPath: string)
    ensures Stores(m, m, ofsPath, [])
  {
    forall key ensures Holds(m, key, Under(ofsPath, [], key), m) { }
  }

  lemma StoresPush(before: map<string, Bytes>, after: map<string, Bytes>, ofsPath: string, files: seq<File>, f: File)
    requires Stores(before, after, ofsPath, files)
    ensures Stores(before, after[ofsPath + f.path := f.content], ofsPath, files + [f])
  {
    var m := after[ofsPath + f.path := f.content];
    assert (files + [f])[..|files|] == files;
    forall key
      ensures Holds(m, key, Under(ofsPath, files + [f], key), before)
    {
      assert Holds(after, key, Under(ofsPath, files, key), before);
      if ofsPath <= key { assert key == ofsPath + key[|ofsPath|..]; }
      assert (ofsPath + f.path)[|ofsPath|..] == f.path;
    }
  }

  // The companions go out one after the other; then the manifest is due.
  lemma {:induction false} CompanionsStored(s: World, c: nat, before: map<string, Bytes>, done: seq<File>)
    requires c < |s.clients| && s.clients[c].PutCompanion? && s.clients[c].next < |s.clients[c].companions|
    requires Stores(before, s.objects, s.clients[c].ofsPath, done + s.clients[c].companions[..s.clients[c].next])
    ensures var h := s.clients[c];
            var t := Writes(s, c, |h.companions| - h.next);
            && t == Goto(s, c, SetManifest(h.id, h.ofsPath, [SKILL_MD] + PathsOf(h.companions))).(objects := t.objects)
            && Stores(before, t.objects, h.ofsPath, done + h.companions)
    decreases |s.clients[c].companions| - s.clients[c].next
  {
    var h := s.clients[c];
    var t := Next(s, c, Stored);
    TakeMore(done, h.companions, h.next);
    StoresPush(before, s.objects, h.ofsPath, done + h.companions[..h.next], h.companions[h.next]);
    if h.next + 1 < |h.companions| {
      CompanionsStored(t, c, before, done);
      assert t.clients[c := SetManifest(h.id, h.ofsPath, [SKILL_MD] + PathsOf(h.companions))]
          == s.clients[c := SetManifest(h.id, h.ofsPath, [SKILL_MD] + PathsOf(h.companions))];
    } else {
      assert h.companions[..h.next + 1] == h.companions;
      assert Writes(t, c, 0) == t;
    }
  }

  // SKILL.md first and then the companions leave what the files in their own order would.
  lemma {:induction false} MainFirst(files: seq<File>, path: string)
    requires MainFile(files).Some?
    ensures LastContent([File(SKILL_MD, MainFile(files).value)] + Companions(files), path) == LastContent(files, path)
  {
    var main := [File(SKILL_MD, MainFile(files).value)];
    SplitLast(main, Companions(files), path);
    if path == SKILL_MD {
      MainIsLast(files);
      NoMainAmong(files);
    } else {
      CompanionIsLast(files, path);
    }
  }

  lemma {:induction false} SplitLast(a: seq<File>, b: seq<File>, path: string)
    ensures LastContent(a + b, path) ==
              if LastContent(b, path).Some? then LastContent(b, path) else LastContent(a, path)
  {
    if b == [] {
      assert a + b == a;
    } else {
      assert (a + b)[..|a + b| - 1] == a + b[..|b| - 1];
      SplitLast(a, b[..|b| - 1], path);
    }
  }

  lemma {:induction false} MainIsLast(files: seq<File>)
    ensures MainFile(files) == LastContent(files, SKILL_MD)
  {
    if files != [] { MainIsLast(files[..|files| - 1]); }
  }

  lemma {:induction false} NoMainAmong(files: seq<File>)
    ensures LastContent(Companions(files), SKILL_MD).None?
  {
    if files != [] {
      var init, f := files[..|files| - 1], files[|files| - 1];
      NoMainAmong(init);
      CompanionsPush(init, f);
      assert files == init + [f];
      if f.path != SKILL_MD {
        assert Companions(files) == Companions(init) + [f];
      } else {
        assert Companions(files) == Companions(init);
      }
    }
  }

  lemma CompanionsPush(files: seq<File>, f: File)
    ensures Companions(files + [f]) == if f.path == SKILL_MD then Companions(files) else Companions(files) + [f]
  {
  }

  lemma {:induction false} CompanionIsLast(files: seq<File>, path: string)
    requires path != SKILL_MD
    ensures LastContent(Companions(files), path) == LastContent(files, path)
  {
    if files != [] {
      var init, f := files[..|files| - 1], files[|files| - 1];
      CompanionIsLast(init, path);
      CompanionsPush(init, f);
      assert files == init + [f];
    }
  }

  lemma StoresSame(before: map<string, Bytes>, after: map<string, Bytes>, ofsPath: string, a: seq<File>, b: seq<File>)
    requires Stores(before, after, ofsPath, a) && forall path :: LastContent(a, path) == LastContent(b, path)
    ensures Stores(before, after, ofsPath, b)
  {
    forall key
      ensures Holds(after, key, Under(ofsPath, b, key), before)
    {
      assert Holds(after, key, Under(ofsPath, a, key), before);
      if ofsPath <= key { assert LastContent(a, key[|ofsPath|..]) == LastContent(b, key[|ofsPath|..]); }
    }
  }

  // The row of a new skill with the given manifest.
  function WithSkill(s: World, name: string, ofsPath: string, files: seq<string>): World {
    s.(kinds := s.kinds[s.nextId := Kind(name, ofsPath, Skill(Some(files)))], nextId := s.nextId + 1)
  }

  lemma {:induction false} WritesMore(s: World, c: nat, m: nat, n: nat)
    requires c < |s.clients|
    ensures Writes(s, c, m + n) == Writes(Writes(s, c, m), c, n)
    decreases m
  {
    if m > 0 && !s.clients[c].Done? { WritesMore(Next(s, c, Stored), c, m - 1, n); }
  }

  // Main result: a zip upload that runs alone and without failures leaves one new skill, whose manifest is
  // SKILL.md and the companions in their order, and under its path exactly the files of the zip with their
  // bytes; every other object and row is as before.
  lemma ZipIsStored(s: World, c: nat, name: string, ofsPath: string, raw: seq<File>) returns (n: nat)
    requires Enabled(s, BeginZip(c, name, ofsPath, raw)) && ValidName(name) && !SkillNamed(s, name)
    requires Accepted(StripWrapper(raw)).Ok?
    ensures var files := StripWrapper(raw);
            var t := Writes(Step(s, BeginZip(c, name, ofsPath, raw)), c, n);
            && t == WithSkill(s, name, ofsPath, [SKILL_MD] + PathsOf(Companions(files))).(objects := t.objects)
            && Stores(s.objects, t.objects, ofsPath, files)
  {
    var files := StripWrapper(raw);
    var main := File(SKILL_MD, MainFile(files).value);
    forall path ensures LastContent([main] + Companions(files), path) == LastContent(files, path) {
      MainFirst(files, path);
    }
    n := UploadIsStored(s, c, name, ofsPath, Upload(MainFile(files).value, Companions(files)));
    var t := Writes(Step(s, BeginZip(c, name, ofsPath, raw)), c, n);
    StoresSame(s.objects, t.objects, ofsPath, [main] + Companions(files), files);
  }

  lemma UploadIsStored(s: World, c: nat, name: string, ofsPath: string, upload: Upload) returns (n: nat)
    requires c < |s.clients| && s.clients[c].Done? && !SkillNamed(s, name)
    ensures var t := Writes(Goto(s, c, PutMain(name, ofsPath, upload)), c, n);
            && t == WithSkill(s, name, ofsPath, [SKILL_MD] + PathsOf(upload.companions)).(objects := t.objects)
            && Stores(s.objects, t.objects, ofsPath, [File(SKILL_MD, upload.skillMd)] + upload.companions)
  {
    var main := File(SKILL_MD, upload.skillMd);
    var s0 := Goto(s, c, PutMain(name, ofsPath, upload));
    var s2 := Next(Next(s0, c, Stored), c, Stored);
    StoresNone(s.objects, ofsPath);
    StoresPush(s.objects, s.objects, ofsPath, [], main);
    assert [] + [main] == [main];
    if upload.companions == [] {
      n := 2;
      assert [main] + upload.companions == [main] && [SKILL_MD] + PathsOf([]) == [SKILL_MD];
      assert s2.clients == s.clients;
    } else {
      var k := |upload.companions|;
      n := k + 1 + 2;
      assert [main] + upload.companions[..0] == [main];
      CompanionsStored(s2, c, s.objects, [main]);
      WritesMore(s2, c, k, 1);
      var s3 := Writes(s2, c, k);
      assert Next(s3, c, Stored).clients == s.clients;
    }
  }

  // A create refused because the name is taken has already put its SKILL.md where the skill of that name has
  // its own. It leaves the stored bytes as they were exactly when it brought the same ones.
  lemma RefusedCreate(s: World, c: nat, name: string, ofsPath: string, upload: Upload)
    requires c < |s.clients| && s.clients[c].Done? && SkillNamed(s, name)
    ensures var t := Writes(Goto(s, c, PutMain(name, ofsPath, upload)), c, 2);
            && t == s.(objects := t.objects) && Stores(s.objects, t.objects, ofsPath, [File(SKILL_MD, upload.skillMd)])
            && (t == s <==> ofsPath + SKILL_MD in s.objects && s.objects[ofsPath + SKILL_MD] == upload.skillMd)
  {
    var s0 := Goto(s, c, PutMain(name, ofsPath, upload));
    var s1 := Next(s0, c, Stored);
    var main := File(SKILL_MD, upload.skillMd);
    assert SkillNamed(s1, name) == SkillNamed(s, name);
    var s2 := Next(s1, c, Stored);
    assert s2.clients == s.clients;
    assert Writes(s2, c, 0) == s2 && Writes(s1, c, 1) == Writes(s2, c, 0);
    StoresNone(s.objects, ofsPath);
    StoresPush(s.objects, s.objects, ofsPath, [], main);
    assert [] + [main] == [main];
    if s2.objects == s.objects { assert s2.objects[ofsPath + SKILL_MD] == upload.skillMd; }
  }

  // An upsert that runs alone: the object holds the content, and the manifest ends with a path it had not.
  lemma UpsertIsStored(s: World, c: nat, id: nat, file: File)
    requires Enabled(s, BeginUpsert(c, id, file)) && IsSkill(s, id) && ValidFilePath(file.path)
    requires UpsertAllowed(SkillFiles(s.kinds[id]), file.path)
    ensures var t := Writes(Step(s, BeginUpsert(c, id, file)), c, 2);
            var files := SkillFiles(s.kinds[id]);
            && t.clients == s.clients && t.nextId == s.nextId
            && t.objects == s.objects[s.kinds[id].ofsPath + file.path := file.content]
            && t.kinds == if file.path in files then s.kinds
                          else s.kinds[id := s.kinds[id].(data := Skill(Some(files + [file.path])))]
  {
    var s0 := Step(s, BeginUpsert(c, id, file));
    var s1 := Next(s0, c, Stored);
    if file.path in SkillFiles(s.kinds[id]) {
      assert Writes(s1, c, 1) == s1 && s1.clients == s.clients;
    } else {
      assert s1.clients[c := Done] == s.clients;
    }
  }

  // A removal that runs alone: the path leaves the manifest, the objects stay.
  lemma RemovalIsStored(s: World, c: nat, id: nat, path: string)
    requires Enabled(s, BeginDeleteFile(c, id, path)) && IsSkill(s, id) && ValidFilePath(path) && path != SKILL_MD
    ensures var t := Writes(Step(s, BeginDeleteFile(c, id, path)), c, 1);
            var files := SkillFiles(s.kinds[id]);
            && t.clients == s.clients && t.nextId == s.nextId && t.objects == s.objects
            && t.kinds == if path in files then s.kinds[id := s.kinds[id].(data := Skill(Some(Without(files, path))))]
                          else s.kinds
  {
    var s0 := Step(s, BeginDeleteFile(c, id, path));
    if path in SkillFiles(s.kinds[id]) {
      assert s0.clients[c := Done] == s.clients;
    }
  }

  // A skill created with its SKILL.md alone, undisturbed: one new row listing it, and its bytes.
  lemma SkillIsStored(s: World, c: nat, name: string, ofsPath: string, content: Bytes) returns (n: nat)
    requires Enabled(s, BeginSkill(c, name, ofsPath, content)) && ValidName(name) && !SkillNamed(s, name)
    ensures var t := Writes(Step(s, BeginSkill(c, name, ofsPath, content)), c, n);
            && t == s.(kinds := t.kinds, objects := t.objects, nextId := s.nextId + 1)
            && t.kinds == s.kinds[s.nextId := Kind(name, ofsPath, Skill(Some(["SKILL.md"])))]
            && t.objects == s.objects[ofsPath + "SKILL.md" := content]
  {
    n := 2;
    var s0 := Step(s, BeginSkill(c, name, ofsPath, content));
    assert Next(Next(s0, c, Stored), c, Stored).clients == s.clients;
  }

  // A replaced SKILL.md, undisturbed: its bytes, and nothing else.
  lemma MainFileIsReplaced(s: World, c: nat, id: nat, content: Bytes)
    requires Enabled(s, BeginReplaceMain(c, id, content)) && IsSkill(s, id)
    ensures Writes(Step(s, BeginReplaceMain(c, id, content)), c, 1)
         == s.(objects := s.objects[s.kinds[id].ofsPath + "SKILL.md" := content])
  {
    var s0 := Step(s, BeginReplaceMain(c, id, content));
    var s1 := Next(s0, c, Stored);
    assert Writes(s1, c, 0) == s1 && s1.clients == s.clients;
  }

  // A deleted resource: its row is gone, its objects stay.
  lemma RowIsDeleted(s: World, c: nat, id: nat)
    requires Enabled(s, DeleteRow(c, id))
    ensures Step(s, DeleteRow(c, id)) == s.(kinds := s.kinds - {id})
  {
  }

  // What is refused changes nothing: names and paths that are not valid, uploads that are not accepted, ids that
  // are no skill's, a new path over the limit of twenty, and the removal of SKILL.md or of a path not listed.
  lemma RefusedChangesNothing(s: World, a: Action)
    requires Enabled(s, a)
    ensures (a.BeginZip? || a.BeginSkill? || a.BeginMcp?) && !ValidName(a.name) ==> Step(s, a) == s
    ensures a.BeginZip? && Accepted(StripWrapper(a.raw)).Err? ==> Step(s, a) == s
    ensures (a.BeginUpsert? || a.BeginDeleteFile? || a.BeginReplaceMain?) && !IsSkill(s, a.id) ==> Step(s, a) == s
    ensures a.BeginUpsert? && IsSkill(s, a.id) ==>
              var files := SkillFiles(s.kinds[a.id]);
              (Step(s, a) == s <==> !ValidFilePath(a.file.path) || (a.file.path !in files && |files| >= 20))
    ensures a.BeginDeleteFile? && IsSkill(s, a.id) ==>
              (Step(s, a) == s <==>
               a.path == "SKILL.md" || !ValidFilePath(a.path) || a.path !in SkillFiles(s.kinds[a.id]))
  {
    if a.BeginUpsert? || a.BeginDeleteFile? { assert s.clients[a.c].Done?; }
    var t := Step(s, a);
    if t.clients != s.clients { assert t != s; }
    assert t.clients[a.c] != s.clients[a.c] ==> t.clients != s.clients;
  }
}
