/** Skills: a manifest of file paths in the kinds table that indexes objects in the object store. Handlers
    of many clients interleave at every store operation, and any of these may fail. */
module SkillManifest {
  import opened Wrappers
  import opened Sequences
  import opened Paths

  type Bytes = seq<nat>

  const MAX_SKILL_FILES: nat := 20
  const SKILL_MD := "SKILL.md"

  /* ---- file paths ---- */

  predicate PathChar(c: char) {
    'a' <= c <= 'z' || 'A' <= c <= 'Z' || '0' <= c <= '9' || c == '_' || c == '.' || c == '/' || c == '-'
  }

  predicate ValidFilePath(p: string) {
    && p != "" && (forall c <- p :: PathChar(c))
    && forall s <- Segments(p) :: Ordinary(s)
  }

  // The name of a resource: no slash and no dot among its characters.
  predicate ValidName(name: string) {
    name != "" && '/' !in name && '.' !in name && forall c <- name :: PathChar(c)
  }

  const LOWER := "abcdefghijklmnopqrstuvwxyz"
  const UPPER := "ABCDEFGHIJKLMNOPQRSTUVWXYZ"
  const DIGITS := "0123456789"

  lemma RangeIs(alphabet: string, first: char, c: char)
    requires |alphabet| > 0 && forall i :: 0 <= i < |alphabet| ==> alphabet[i] as int == first as int + i
    ensures c in alphabet <==> first as int <= c as int < first as int + |alphabet|
  {
    if first as int <= c as int < first as int + |alphabet| { assert alphabet[c as int - first as int] == c; }
  }

  // The characters that the two regular expressions name.
  lemma PathCharsAre(c: char)
    ensures PathChar(c) <==> c in LOWER || c in UPPER || c in DIGITS || c in "_./-"
  {
    RangeIs(LOWER, 'a', c);
    RangeIs(UPPER, 'A', c);
    RangeIs(DIGITS, '0', c);
  }

  lemma NamesAre(name: string)
    ensures ValidName(name) <==>
              name != "" && forall c <- name :: c in LOWER || c in UPPER || c in DIGITS || c in "_-"
  {
    forall c | c in name ensures (c != '/' && c != '.' && PathChar(c)) <==>
                                   (c in LOWER || c in UPPER || c in DIGITS || c in "_-")
    {
      PathCharsAre(c);
    }
  }

  /* ---- the records ---- */

  // data of a skill is its manifest, None when it does not parse; of an mcp server its configuration.
  datatype Data = Skill(files: Option<seq<string>>) | Mcp(config: string)

  datatype Kind = Kind(name: string, ofsPath: string, data: Data)

  // The default serves records without a manifest.
  function SkillFiles(k: Kind): seq<string>
    requires k.data.Skill?
  {
    if k.data.files.None? || k.data.files.value == [] then [SKILL_MD] else k.data.files.value
  }

  // The manifest lists SKILL.md and stored objects only, under valid paths, within the limit.
  predicate ManifestOk(objects: map<string, Bytes>, ofsPath: string, files: seq<string>) {
    && SKILL_MD in files && |files| <= MAX_SKILL_FILES
    && forall f <- files :: ofsPath + f in objects && ValidFilePath(f)
  }

  /* ---- the zip upload before its first write ---- */

  datatype File = File(path: string, content: Bytes)

  // The directory all entries lie in, by the first path; "" when it has none.
  function Wrapper(files: seq<File>): string {
    if files != [] && '/' in files[0].path then
      var d := UpToSlash(files[0].path);
      UpToSlashEnds(files[0].path);
      d[..|d| - 1]
    else ""
  }

  function StripWrapper(files: seq<File>): seq<File> {
    var d := Wrapper(files);
    if d != "" && forall f <- files :: d + "/" <= f.path
    then seq(|files|, i requires 0 <= i < |files| =>
               if d + "/" <= files[i].path then files[i].(path := files[i].path[|d| + 1..]) else files[i])
    else files
  }

  datatype Upload = Upload(skillMd: Bytes, companions: seq<File>)

  // The last SKILL.md entry, if any.
  function MainFile(files: seq<File>): Option<Bytes> {
    if files == [] then None
    else if files[|files| - 1].path == SKILL_MD then Some(files[|files| - 1].content)
    else MainFile(files[..|files| - 1])
  }

  function Companions(files: seq<File>): seq<File> { Filter(files, (f: File) => f.path != SKILL_MD) }

  function Accepted(files: seq<File>): Result<Upload> {
    if exists f <- files :: !ValidFilePath(f.path) then Err("invalid path")
    else if MainFile(files).None? then Err("no SKILL.md")
    else if 1 + |Companions(files)| > MAX_SKILL_FILES then Err("too many files")
    else Ok(Upload(MainFile(files).value, Companions(files)))
  }

  // The loop over the stripped entries.
  method SortEntries(files: seq<File>) returns (valid: bool, skillMd: Option<Bytes>, companions: seq<File>)
    ensures valid == forall f <- files :: ValidFilePath(f.path)
    ensures valid ==> skillMd == MainFile(files) && companions == Companions(files)
  {
    valid, skillMd, companions := true, None, [];
    for i := 0 to |files|
      invariant valid && forall f <- files[..i] :: ValidFilePath(f.path)
      invariant companions == Companions(files[..i]) && skillMd == MainFile(files[..i])
    {
      var f := files[i];
      assert files[..i + 1] == files[..i] + [f] && f in files;
      if !ValidFilePath(f.path) {
        valid := false;
        return;
      }
      if f.path == SKILL_MD {
        skillMd := Some(f.content);
      } else {
        companions := companions + [f];
      }
    }
    assert files[..|files|] == files;
  }

  // An upload is accepted exactly when every path is valid, one is SKILL.md, and the others are nineteen at most;
  // the first of these that fails is the reason. The others keep their order and number.
  lemma AcceptedExactly(files: seq<File>)
    ensures Accepted(files) == Err("invalid path") <==> exists f :: f in files && !ValidFilePath(f.path)
    ensures Accepted(files) == Err("no SKILL.md") <==>
              (forall f <- files :: ValidFilePath(f.path)) && forall f <- files :: f.path != "SKILL.md"
    ensures Accepted(files) == Err("too many files") <==>
              (forall f <- files :: ValidFilePath(f.path)) && (exists f :: f in files && f.path == "SKILL.md")
              && |Companions(files)| > 19
    ensures forall f :: multiset(Companions(files))[f] == if f.path == "SKILL.md" then 0 else multiset(files)[f]
  {
    MainFileExists(files);
    forall f ensures multiset(Companions(files))[f] == if f.path == "SKILL.md" then 0 else multiset(files)[f] {
      FilterCount(files, (f: File) => f.path != SKILL_MD, f);
    }
  }

  lemma {:induction false} MainFileExists(files: seq<File>)
    ensures MainFile(files).None? <==> forall f <- files :: f.path != SKILL_MD
  {
    if files != [] {
      MainFileExists(files[..|files| - 1]);
      assert forall f <- files :: f in files[..|files| - 1] || f == files[|files| - 1];
    }
  }

  method AcceptZip(raw: seq<File>) returns (r: Result<Upload>)
    ensures r == Accepted(StripWrapper(raw))
  {
    var files := StripWrapper(raw);
    var valid, skillMd, companions := SortEntries(files);
    if !valid { return Err("invalid path"); }
    if skillMd.None? { return Err("no SKILL.md"); }
    if 1 + |companions| > MAX_SKILL_FILES { return Err("too many files"); }
    r := Ok(Upload(skillMd.value, companions));
  }

  function Wrapped(d: string, files: seq<File>): seq<File> {
    seq(|files|, i requires 0 <= i < |files| => files[i].(path := d + "/" + files[i].path))
  }

  // A zip with SKILL.md at its root and the same zip with everything in one directory are one upload.
  lemma {:induction false} WrapperIsInvisible(d: string, files: seq<File>)
    requires d != "" && '/' !in d && exists f :: f in files && f.path == SKILL_MD
    ensures Accepted(StripWrapper(Wrapped(d, files))) == Accepted(files) == Accepted(StripWrapper(files))
  {
    var w := Wrapped(d, files);
    assert files != [];
    FirstSegment(d, files[0].path);
    var p := w[0].path;
    assert p[|d|] == '/' && p == d + "/" + files[0].path;
    assert (d + "/")[..|d|] == d && Wrapper(w) == d;
    forall f | f in w ensures d + "/" <= f.path {
      var i :| 0 <= i < |w| && w[i] == f;
      assert f.path == d + "/" + files[i].path;
    }
    forall i | 0 <= i < |files| ensures StripWrapper(w)[i] == files[i] {
      assert w[i] in w && w[i].path[|d| + 1..] == files[i].path;
    }
    assert StripWrapper(w) == files;
    RootFileStaysPut(files);
  }

  lemma RootFileStaysPut(files: seq<File>)
    requires exists f :: f in files && f.path == SKILL_MD
    ensures StripWrapper(files) == files
  {
    var f :| f in files && f.path == SKILL_MD;
    var e := Wrapper(files);
    assert (e + "/")[|e|] == '/';
  }

  /* ---- handlers ---- */

  // The next store operation of a handler.
  datatype Handler =
    | Done
    | PutMain(name: string, ofsPath: string, upload: Upload)
    | InsertRow(name: string, ofsPath: string, companions: seq<File>)
    | PutCompanion(id: nat, ofsPath: string, companions: seq<File>, next: nat)
    | PutFile(id: nat, ofsPath: string, files: seq<string>, file: File)
    | SetManifest(id: nat, ofsPath: string, files: seq<string>)

  datatype World = World(objects: map<string, Bytes>, kinds: map<nat, Kind>, nextId: nat, clients: seq<Handler>)

  datatype Action =
    | BeginZip(c: nat, name: string, ofsPath: string, raw: seq<File>)
    | BeginSkill(c: nat, name: string, ofsPath: string, content: Bytes)
    | BeginMcp(c: nat, name: string, ofsPath: string, config: string)
    | BeginUpsert(c: nat, id: nat, file: File)
    | BeginDeleteFile(c: nat, id: nat, path: string)
    | BeginReplaceMain(c: nat, id: nat, content: Bytes)
    | DeleteRow(c: nat, id: nat)
    | DoWrite(c: nat, w: Write)

  predicate Enabled(s: World, a: Action) {
    a.c < |s.clients| && (a.DoWrite? <==> !s.clients[a.c].Done?)
  }

  function Goto(s: World, c: nat, h: Handler): World
    requires c < |s.clients|
  {
    s.(clients := s.clients[c := h])
  }

  predicate IsSkill(s: World, id: nat) { id in s.kinds && s.kinds[id].data.Skill? }

  // The unique index over user, kind and name.
  predicate SkillNamed(s: World, name: string) {
    exists id <- s.kinds :: s.kinds[id].data.Skill? && s.kinds[id].name == name
  }

  function PathsOf(files: seq<File>): seq<string> {
    seq(|files|, i requires 0 <= i < |files| => files[i].path)
  }

  function Put(s: World, key: string, content: Bytes, w: Write): World {
    if w.Applied() then s.(objects := s.objects[key := content]) else s
  }

  // UpsertSkillFile's choice: the limit counts new paths only.
  predicate UpsertAllowed(files: seq<string>, path: string) {
    path in files || |files| < MAX_SKILL_FILES
  }

  function Without(files: seq<string>, path: string): seq<string> {
    Filter(files, f => f != path)
  }

  // The loop of DeleteSkillFile.
  method RemovePath(files: seq<string>, path: string) returns (found: bool, newFiles: seq<string>)
    ensures found <==> path in files
    ensures newFiles == Without(files, path)
  {
    found, newFiles := false, [];
    for i := 0 to |files|
      invariant found <==> path in files[..i]
      invariant newFiles == Without(files[..i], path)
    {
      assert files[..i + 1] == files[..i] + [files[i]];
      if files[i] == path {
        found := true;
      } else {
        newFiles := newFiles + [files[i]];
      }
    }
    assert files[..|files|] == files;
  }

  // Every other path stays as often as it was listed.
  lemma WithoutCount(files: seq<string>, path: string, f: string)
    ensures multiset(Without(files, path))[f] == if f == path then 0 else multiset(files)[f]
  {
    FilterCount(files, f => f != path, f);
  }

  function Next(s: World, c: nat, w: Write): World
    requires c < |s.clients| && !s.clients[c].Done?
  {
    match s.clients[c]
    case PutMain(name, ofsPath, upload) =>
      Put(Goto(s, c, if w.Reported() then InsertRow(name, ofsPath, upload.companions) else Done),
          ofsPath + SKILL_MD, upload.skillMd, w)
    case InsertRow(name, ofsPath, companions) =>
      var taken := SkillNamed(s, name);
      var h := if w.Reported() && !taken && companions != [] then PutCompanion(s.nextId, ofsPath, companions, 0)
               else Done;
      var t := Goto(s, c, h);
      if w.Applied() && !taken
      then t.(kinds := s.kinds[s.nextId := Kind(name, ofsPath, Skill(Some([SKILL_MD])))], nextId := s.nextId + 1)
      else t
    case PutCompanion(id, ofsPath, companions, next) =>
      if next >= |companions| then s
      else
        var h := if !w.Reported() then Done
                 else if next + 1 < |companions| then PutCompanion(id, ofsPath, companions, next + 1)
                 else SetManifest(id, ofsPath, [SKILL_MD] + PathsOf(companions));
        Put(Goto(s, c, h), ofsPath + companions[next].path, companions[next].content, w)
    case PutFile(id, ofsPath, files, file) =>
      var h := if !w.Reported() || file.path in files then Done else SetManifest(id, ofsPath, files + [file.path]);
      Put(Goto(s, c, h), ofsPath + file.path, file.content, w)
    case SetManifest(id, _, files) =>
      var t := Goto(s, c, Done);
      if w.Applied() && id in s.kinds
      then t.(kinds := s.kinds[id := s.kinds[id].(data := Skill(Some(files)))]) else t
    case Done => s
  }

  function Step(s: World, a: Action): World
    requires Enabled(s, a)
  {
    match a
    case BeginZip(c, name, ofsPath, raw) =>
      if !ValidName(name) then s
      else match Accepted(StripWrapper(raw)) {
        case Err(_) => s
        case Ok(upload) => Goto(s, c, PutMain(name, ofsPath, upload))
      }
    case BeginSkill(c, name, ofsPath, content) =>
      if ValidName(name) then Goto(s, c, PutMain(name, ofsPath, Upload(content, []))) else s
    case BeginMcp(c, name, ofsPath, config) =>
      if !ValidName(name) then s
      else s.(kinds := s.kinds[s.nextId := Kind(name, ofsPath, Mcp(config))], nextId := s.nextId + 1)
    case BeginUpsert(c, id, file) =>
      if !ValidFilePath(file.path) || !IsSkill(s, id) then s
      else
        var files := SkillFiles(s.kinds[id]);
        if UpsertAllowed(files, file.path) then Goto(s, c, PutFile(id, s.kinds[id].ofsPath, files, file)) else s
    case BeginDeleteFile(c, id, path) =>
      if path == SKILL_MD || !ValidFilePath(path) || !IsSkill(s, id) then s
      else
        var files := SkillFiles(s.kinds[id]);
        if path in files then Goto(s, c, SetManifest(id, s.kinds[id].ofsPath, Without(files, path))) else s
    case BeginReplaceMain(c, id, content) =>
      if !IsSkill(s, id) then s
      else Goto(s, c, PutFile(id, s.kinds[id].ofsPath, [SKILL_MD], File(SKILL_MD, content)))
    case DeleteRow(c, id) => s.(kinds := s.kinds - {id})
    case DoWrite(c, w) => Next(s, c, w)
  }

  /* ---- the invariant ---- */

  predicate RowsOk(s: World) {
    && (forall id <- s.kinds :: id < s.nextId && ValidName(s.kinds[id].name))
    && (forall i <- s.kinds, j <- s.kinds :: i != j && s.kinds[i].data.Skill? && s.kinds[j].data.Skill? ==>
          s.kinds[i].name != s.kinds[j].name)
    && forall id <- s.kinds :: s.kinds[id].data.Skill? ==>
         s.kinds[id].data.files.Some? && ManifestOk(s.objects, s.kinds[id].ofsPath, s.kinds[id].data.files.value)
  }

  // A manifest update under way fits the row it goes to, if the row is still there.
  predicate TargetOk(s: World, id: nat, ofsPath: string) {
    id < s.nextId && (id in s.kinds ==> s.kinds[id].data.Skill? && s.kinds[id].ofsPath == ofsPath)
  }

  predicate HandlerOk(s: World, h: Handler) {
    match h
    case Done => true
    case PutMain(name, _, upload) =>
      ValidName(name) && |upload.companions| < MAX_SKILL_FILES && forall f <- upload.companions :: ValidFilePath(f.path)
    case InsertRow(name, ofsPath, companions) =>
      && ValidName(name) && ofsPath + SKILL_MD in s.objects
      && |companions| < MAX_SKILL_FILES && forall f <- companions :: ValidFilePath(f.path)
    case PutCompanion(id, ofsPath, companions, next) =>
      && TargetOk(s, id, ofsPath) && ofsPath + SKILL_MD in s.objects && next < |companions| < MAX_SKILL_FILES
      && (forall f <- companions :: ValidFilePath(f.path))
      && forall i :: 0 <= i < next ==> ofsPath + companions[i].path in s.objects
    case PutFile(id, ofsPath, files, file) =>
      && TargetOk(s, id, ofsPath) && ValidFilePath(file.path)
      && ManifestOk(s.objects, ofsPath, files) && UpsertAllowed(files, file.path)
    case SetManifest(id, ofsPath, files) => TargetOk(s, id, ofsPath) && ManifestOk(s.objects, ofsPath, files)
  }

  predicate Inv(s: World) { RowsOk(s) && forall h <- s.clients :: HandlerOk(s, h) }

  lemma SkillMdIsValid()
    ensures ValidFilePath(SKILL_MD)
  {
    SingleSegmentIsValid(SKILL_MD);
  }

  lemma SingleSegmentIsValid(s: string)
    requires Ordinary(s) && forall c <- s :: PathChar(c) && c != '/'
    ensures ValidFilePath(s)
  {
    OneSegment(s);
  }

  // Objects are only ever added or overwritten, rows keep their path, and ids are not used twice.
  predicate Grows(s: World, t: World) {
    && (forall k <- s.objects :: k in t.objects) && s.nextId <= t.nextId
    && forall id <- t.kinds :: id in s.kinds ==>
         t.kinds[id].ofsPath == s.kinds[id].ofsPath && (t.kinds[id].data.Skill? <==> s.kinds[id].data.Skill?)
  }

  lemma StepGrows(s: World, a: Action)
    requires Inv(s) && Enabled(s, a)
    ensures Grows(s, Step(s, a))
    ensures forall id <- Step(s, a).kinds :: id !in s.kinds ==> id >= s.nextId
    ensures |Step(s, a).clients| == |s.clients|
    ensures forall c :: 0 <= c < |s.clients| && c != a.c ==> Step(s, a).clients[c] == s.clients[c]
  {
    if a.DoWrite? { NextGrows(s, a.c, a.w); }
  }

  lemma NextGrows(s: World, c: nat, w: Write)
    requires Inv(s) && c < |s.clients| && !s.clients[c].Done?
    ensures Grows(s, Next(s, c, w))
    ensures forall id <- Next(s, c, w).kinds :: id !in s.kinds ==> id >= s.nextId
    ensures |Next(s, c, w).clients| == |s.clients|
    ensures forall d :: 0 <= d < |s.clients| && d != c ==> Next(s, c, w).clients[d] == s.clients[d]
  {
    assert HandlerOk(s, s.clients[c]);
  }

  lemma PutKeeps(s: World, c: nat, w: Write)
    requires Inv(s) && c < |s.clients|
    requires s.clients[c].PutMain? || s.clients[c].PutFile? || s.clients[c].PutCompanion?
    ensures var t := Next(s, c, w); RowsOk(t) && HandlerOk(t, t.clients[c])
  {
    assert HandlerOk(s, s.clients[c]);
    SkillMdIsValid();
  }

  lemma InsertKeeps(s: World, c: nat, w: Write)
    requires Inv(s) && c < |s.clients| && s.clients[c].InsertRow?
    ensures var t := Next(s, c, w); RowsOk(t) && HandlerOk(t, t.clients[c])
  {
    assert HandlerOk(s, s.clients[c]);
    SkillMdIsValid();
  }

  lemma SetKeeps(s: World, c: nat, w: Write)
    requires Inv(s) && c < |s.clients| && s.clients[c].SetManifest?
    ensures var t := Next(s, c, w); RowsOk(t) && HandlerOk(t, t.clients[c])
  {
    assert HandlerOk(s, s.clients[c]);
  }

  lemma StepKeepsInv(s: World, a: Action)
    requires Inv(s) && Enabled(s, a)
    ensures Inv(Step(s, a))
  {
    var t := Step(s, a);
    StepGrows(s, a);
    assert HandlerOk(t, t.clients[a.c]) && RowsOk(t) by {
      if !a.DoWrite? { BeginKeeps(s, a); }
      else if s.clients[a.c].InsertRow? { InsertKeeps(s, a.c, a.w); }
      else if s.clients[a.c].SetManifest? { SetKeeps(s, a.c, a.w); }
      else { PutKeeps(s, a.c, a.w); }
    }
    forall c | 0 <= c < |t.clients| ensures HandlerOk(t, t.clients[c]) {
      if c != a.c {
        assert s.clients[c] in s.clients;
      }
    }
  }

  lemma BeginKeeps(s: World, a: Action)
    requires Inv(s) && Enabled(s, a) && !a.DoWrite?
    ensures var t := Step(s, a); RowsOk(t) && HandlerOk(t, t.clients[a.c])
  {
    match a
    case BeginUpsert(_, _, _) => FileChangeKeeps(s, a);
    case BeginDeleteFile(_, _, _) => FileChangeKeeps(s, a);
    case BeginReplaceMain(_, _, _) => FileChangeKeeps(s, a);
    case _ =>
  }

  lemma FileChangeKeeps(s: World, a: Action)
    requires Inv(s) && Enabled(s, a) && (a.BeginUpsert? || a.BeginDeleteFile? || a.BeginReplaceMain?)
    ensures var t := Step(s, a); RowsOk(t) && HandlerOk(t, t.clients[a.c])
  {
    SkillMdIsValid();
    if a.BeginDeleteFile? && IsSkill(s, a.id) { FilterShorter(SkillFiles(s.kinds[a.id]), f => f != a.path); }
  }

  /* ---- executions ---- */

  predicate Init(s: World) {
    s.objects == map[] && s.kinds == map[] && s.nextId == 0 && forall h <- s.clients :: h.Done?
  }

  ghost predicate Execution(trace: seq<World>, acts: seq<Action>) {
    && |trace| == |acts| + 1 && Init(trace[0])
    && forall i :: 0 <= i < |acts| ==> Enabled(trace[i], acts[i]) && trace[i + 1] == Step(trace[i], acts[i])
  }

  lemma {:induction false} InvAlways(trace: seq<World>, acts: seq<Action>, i: nat)
    requires Execution(trace, acts) && i < |trace|
    ensures Inv(trace[i])
  {
    if i > 0 {
      InvAlways(trace, acts, i - 1);
      StepKeepsInv(trace[i - 1], acts[i - 1]);
    }
  }

  // Main result: at every step of every interleaving, with failures anywhere, each skill's manifest lists
  // SKILL.md, at most twenty files, and only files whose objects are stored.
  lemma ManifestsAlwaysOk(trace: seq<World>, acts: seq<Action>, i: nat, id: nat)
    requires Execution(trace, acts) && i < |trace| && IsSkill(trace[i], id)
    ensures ManifestOk(trace[i].objects, trace[i].kinds[id].ofsPath, SkillFiles(trace[i].kinds[id]))
  {
    InvAlways(trace, acts, i);
  }
}
