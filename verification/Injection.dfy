/** Writing a user's resources into a sandbox: every skill file under the skill's own directory, and the MCP
    servers into one configuration file. */
module Injection {
  import opened Wrappers
  import opened Paths
  import opened SkillManifest
  import opened SkillUpload

  datatype Command = MakeDir(path: string) | WriteFile(path: string, content: Bytes)

  // The sandbox as the list of file operations it has done; any request may fail.
  class Sandbox {
    var log: seq<Command>

    constructor ()
      ensures log == []
    {
      log := [];
    }

    method Do(c: Command, works: bool) returns (ok: bool)
      modifies this
      ensures ok == works && log == if works then old(log) + [c] else old(log)
    {
      if works { log := log + [c]; }
      ok := works;
    }
  }

  function SkillDir(skillsDir: string, name: string): string { skillsDir + "/" + name }

  function Target(skillsDir: string, name: string, rel: string): string { SkillDir(skillsDir, name) + "/" + rel }

  function TargetDir(skillsDir: string, name: string, rel: string): string {
    if DirOf(rel) == "." then SkillDir(skillsDir, name) else SkillDir(skillsDir, name) + "/" + DirOf(rel)
  }

  // path holds content: written after its directory was made, and not overwritten by anything else.
  ghost predicate Delivered(log: seq<Command>, dir: string, path: string, content: Bytes) {
    exists i, j :: DeliveredAt(log, dir, path, content, i, j)
  }

  predicate DeliveredAt(log: seq<Command>, dir: string, path: string, content: Bytes, i: int, j: int) {
    && 0 <= i < j < |log| && log[i] == MakeDir(dir) && log[j] == WriteFile(path, content)
    && forall l :: j < l < |log| && log[l].WriteFile? && log[l].path == path ==> log[l].content == content
  }

  lemma DeliveredPush(log: seq<Command>, dir: string, path: string, content: Bytes, c: Command)
    requires Delivered(log, dir, path, content)
    requires c.WriteFile? && c.path == path ==> c.content == content
    ensures Delivered(log + [c], dir, path, content)
  {
    var i, j :| DeliveredAt(log, dir, path, content, i, j);
    assert DeliveredAt(log + [c], dir, path, content, i, j);
  }

  // Every file of the skill is delivered with the bytes stored for it.
  ghost predicate SkillDelivered(log: seq<Command>, objects: map<string, Bytes>, skillsDir: string, k: Kind,
                                 files: seq<string>) {
    forall f <- files :: k.ofsPath + f in objects &&
      Delivered(log, TargetDir(skillsDir, k.name, f), Target(skillsDir, k.name, f), objects[k.ofsPath + f])
  }

  /* ---- targets ---- */

  lemma TargetInjective(skillsDir: string, n: string, f: string, n': string, f': string)
    requires '/' !in n && '/' !in n' && Target(skillsDir, n, f) == Target(skillsDir, n', f')
    ensures n == n' && f == f'
  {
    var s := Target(skillsDir, n, f);
    var base := skillsDir + "/";
    assert s == base + (n + "/" + f) && s == base + (n' + "/" + f');
    assert s[|base|..] == n + "/" + f && s[|base|..] == n' + "/" + f';
    SamePrefixSegment(n, f, n', f', s[|base|..]);
    assert (n + "/" + f)[|n| + 1..] == f && (n' + "/" + f')[|n| + 1..] == f';
  }

  // A valid path of a validly named skill leads below that skill's directory: the name and the path's own
  // segments follow where the skills directory leads, with nothing to resolve away.
  lemma TargetStaysInSkillDir(skillsDir: string, name: string, rel: string)
    requires ValidName(name) && ValidFilePath(rel)
    ensures Resolve(Segments(Target(skillsDir, name, rel)))
         == Resolve(Segments(skillsDir)) + ([name] + Segments(rel))
  {
    SegmentsOfThree(skillsDir, name, rel);
    var tail := [name] + Segments(rel);
    forall s | s in tail ensures Ordinary(s) { assert s == name || s in Segments(rel); }
    ResolveOrdinary(Segments(skillsDir), tail);
  }

  // The directory made for a file is the directory of its target.
  lemma TargetDirIsParent(skillsDir: string, name: string, rel: string)
    requires ValidFilePath(rel)
    ensures exists last :: '/' !in last && Target(skillsDir, name, rel) == TargetDir(skillsDir, name, rel) + "/" + last
  {
    var last := DirectorySplits(rel);
    var dir := Directory(rel);
    if dir == "" {
      assert [""][..0] == [] && CleanSegments(false, [""]) == CleanSegments(false, [""][..0]);
      assert rel == last && DirOf(rel) == ".";
      assert Target(skillsDir, name, rel) == TargetDir(skillsDir, name, rel) + "/" + last;
    } else {
      var d := dir[..|dir| - 1];
      assert dir == d + "/" && rel == d + "/" + last;
      SegmentsJoin(d, last);
      forall s | s in Segments(d) ensures Ordinary(s) { assert s in Segments(rel); }
      DirOfOrdinary(d, last);
      assert SkillDir(skillsDir, name) + "/" + rel == (SkillDir(skillsDir, name) + "/" + d) + "/" + last;
    }
  }

  // Different files under valid names and paths lead to different places, not just by different texts.
  lemma TargetsStayApart(skillsDir: string, n: string, f: string, n': string, f': string)
    requires ValidName(n) && ValidFilePath(f) && ValidName(n') && ValidFilePath(f')
    requires Resolve(Segments(Target(skillsDir, n, f))) == Resolve(Segments(Target(skillsDir, n', f')))
    ensures n == n' && f == f'
  {
    TargetStaysInSkillDir(skillsDir, n, f);
    TargetStaysInSkillDir(skillsDir, n', f');
    var base := Resolve(Segments(skillsDir));
    assert (base + ([n] + Segments(f)))[|base|..] == [n] + Segments(f);
    assert (base + ([n'] + Segments(f')))[|base|..] == [n'] + Segments(f');
    assert ([n] + Segments(f))[1..] == Segments(f) && ([n'] + Segments(f'))[1..] == Segments(f');
    assert ([n] + Segments(f))[0] == n && ([n'] + Segments(f'))[0] == n';
    JoinSegments(f);
    JoinSegments(f');
  }

  /* ---- injectResources ---- */

  // The last command of a log was that of the new file; the files before keep what they have.
  lemma SkillDeliveredPush(log: seq<Command>, objects: map<string, Bytes>, skillsDir: string, k: Kind,
                           files: seq<string>, dir: string, rel: string)
    requires '/' !in k.name && SkillDelivered(log, objects, skillsDir, k, files)
    requires k.ofsPath + rel in objects && dir == TargetDir(skillsDir, k.name, rel)
    ensures SkillDelivered(log + [MakeDir(dir)], objects, skillsDir, k, files)
    ensures SkillDelivered(log + [MakeDir(dir), WriteFile(Target(skillsDir, k.name, rel), objects[k.ofsPath + rel])],
                           objects, skillsDir, k, files + [rel])
  {
    var path, content := Target(skillsDir, k.name, rel), objects[k.ofsPath + rel];
    var log' := log + [MakeDir(dir), WriteFile(path, content)];
    assert log' == (log + [MakeDir(dir)]) + [WriteFile(path, content)];
    assert DeliveredAt(log', dir, path, content, |log|, |log| + 1);
    forall f | f in files
      ensures var (d, p, c) := (TargetDir(skillsDir, k.name, f), Target(skillsDir, k.name, f), objects[k.ofsPath + f]);
              Delivered(log + [MakeDir(dir)], d, p, c) && Delivered(log', d, p, c)
    {
      var d, p, c := TargetDir(skillsDir, k.name, f), Target(skillsDir, k.name, f), objects[k.ofsPath + f];
      if p == path { TargetInjective(skillsDir, k.name, f, k.name, rel); }
      DeliveredPush(log, d, p, c, MakeDir(dir));
      DeliveredPush(log + [MakeDir(dir)], d, p, c, WriteFile(path, content));
    }
  }

  // One file: make its directory, fetch its bytes, write them. Each request may fail: works says which.
  method InjectFile(sandbox: Sandbox, objects: map<string, Bytes>, skillsDir: string, k: Kind, rel: string,
                    works: nat -> bool)
    returns (ok: bool)
    modifies sandbox
    ensures var dir, path := TargetDir(skillsDir, k.name, rel), Target(skillsDir, k.name, rel);
            if ok then
              && k.ofsPath + rel in objects
              && sandbox.log == old(sandbox.log) + [MakeDir(dir), WriteFile(path, objects[k.ofsPath + rel])]
            else sandbox.log == old(sandbox.log) || sandbox.log == old(sandbox.log) + [MakeDir(dir)]
    ensures ok <==> works(0) && works(1) && works(2) && k.ofsPath + rel in objects
  {
    var targetDir := SkillDir(skillsDir, k.name);
    if DirOf(rel) != "." { targetDir := SkillDir(skillsDir, k.name) + "/" + DirOf(rel); }
    ok := sandbox.Do(MakeDir(targetDir), works(0));
    if !ok { return; }
    if !works(1) || k.ofsPath + rel !in objects { return false; }
    ok := sandbox.Do(WriteFile(Target(skillsDir, k.name, rel), objects[k.ofsPath + rel]), works(2));
  }

  predicate AllStored(objects: map<string, Bytes>, k: Kind) {
    k.data.Skill? ==> forall f <- SkillFiles(k) :: k.ofsPath + f in objects
  }

  // Commands of one skill only write the targets of its files.
  ghost predicate WritesOnly(log: seq<Command>, from: nat, skillsDir: string, name: string, files: seq<string>) {
    forall l :: from <= l < |log| && log[l].WriteFile? ==>
      exists f :: f in files && log[l].path == Target(skillsDir, name, f)
  }

  // So nothing is written outside the directory of the skill.
  lemma WritesStayInSkillDir(log: seq<Command>, from: nat, skillsDir: string, name: string, files: seq<string>, l: nat)
    requires ValidName(name) && forall f <- files :: ValidFilePath(f)
    requires WritesOnly(log, from, skillsDir, name, files) && from <= l < |log| && log[l].WriteFile?
    ensures Below(Resolve(Segments(skillsDir)) + [name], Resolve(Segments(log[l].path)))
  {
    var f :| f in files && log[l].path == Target(skillsDir, name, f);
    TargetStaysInSkillDir(skillsDir, name, f);
  }

  predicate Below(dir: seq<string>, path: seq<string>) { dir <= path && dir != path }

  method InjectSkill(sandbox: Sandbox, objects: map<string, Bytes>, skillsDir: string, k: Kind,
                     works: (nat, nat) -> bool)
    returns (ok: bool)
    requires k.data.Skill? && '/' !in k.name
    modifies sandbox
    ensures old(sandbox.log) <= sandbox.log
    ensures WritesOnly(sandbox.log, |old(sandbox.log)|, skillsDir, k.name, SkillFiles(k))
    ensures ok ==> SkillDelivered(sandbox.log, objects, skillsDir, k, SkillFiles(k))
    ensures (forall f: nat, n: nat :: works(f, n)) && AllStored(objects, k) ==> ok
  {
    var files := SkillFiles(k);
    for i := 0 to |files|
      invariant old(sandbox.log) <= sandbox.log
      invariant WritesOnly(sandbox.log, |old(sandbox.log)|, skillsDir, k.name, SkillFiles(k))
      invariant SkillDelivered(sandbox.log, objects, skillsDir, k, files[..i])
    {
      ghost var log := sandbox.log;
      ghost var dir := TargetDir(skillsDir, k.name, files[i]);
      ok := InjectFile(sandbox, objects, skillsDir, k, files[i], (n: nat) => works(i, n));
      if !ok { return; }
      SkillDeliveredPush(log, objects, skillsDir, k, files[..i], dir, files[i]);
      assert files[..i + 1] == files[..i] + [files[i]];
    }
    assert files[..|files|] == files;
    ok := true;
  }

  // Later commands that write no target of a skill leave it delivered.
  lemma {:induction false} SkillStaysDelivered(log: seq<Command>, more: seq<Command>, objects: map<string, Bytes>,
                                               skillsDir: string, k: Kind)
    requires k.data.Skill? && SkillDelivered(log, objects, skillsDir, k, SkillFiles(k))
    requires forall c <- more :: c.WriteFile? ==> forall f <- SkillFiles(k) :: c.path != Target(skillsDir, k.name, f)
    ensures SkillDelivered(log + more, objects, skillsDir, k, SkillFiles(k))
  {
    if more == [] {
      assert log + more == log;
    } else {
      var init, c := more[..|more| - 1], more[|more| - 1];
      forall d | d in init ensures d in more { }
      SkillStaysDelivered(log, init, objects, skillsDir, k);
      assert c in more && log + more == (log + init) + [c];
      forall f | f in SkillFiles(k) {
        DeliveredPush(log + init, TargetDir(skillsDir, k.name, f), Target(skillsDir, k.name, f),
                      objects[k.ofsPath + f], c);
      }
    }
  }

  function McpServers(kinds: seq<Kind>): map<string, string> {
    if kinds == [] then map[]
    else
      var before, k := McpServers(kinds[..|kinds| - 1]), kinds[|kinds| - 1];
      if k.data.Mcp? then before[k.name := k.data.config] else before
  }

  predicate IsLastServer(kinds: seq<Kind>, name: string, i: int) {
    && 0 <= i < |kinds| && kinds[i].data.Mcp? && kinds[i].name == name
    && forall j :: i < j < |kinds| && kinds[j].data.Mcp? ==> kinds[j].name != name
  }

  // Each MCP server is bound to the configuration of the last kind of its name, and nothing else is bound.
  lemma {:induction false} McpServersAre(kinds: seq<Kind>, name: string, i: int)
    requires IsLastServer(kinds, name, i)
    ensures name in McpServers(kinds) && McpServers(kinds)[name] == kinds[i].data.config
  {
    var init, last := kinds[..|kinds| - 1], kinds[|kinds| - 1];
    if i < |init| {
      assert forall j :: i <= j < |init| ==> init[j] == kinds[j];
      McpServersAre(init, name, i);
    }
  }

  lemma {:induction false} OnlyMcpServers(kinds: seq<Kind>, name: string)
    requires forall k <- kinds :: k.data.Mcp? ==> k.name != name
    ensures name !in McpServers(kinds)
  {
    if kinds != [] {
      forall k | k in kinds[..|kinds| - 1] ensures k.data.Mcp? ==> k.name != name { assert k in kinds; }
      OnlyMcpServers(kinds[..|kinds| - 1], name);
      assert kinds[|kinds| - 1] in kinds;
    }
  }

  // A skill whose manifest does not parse, or is empty, is its SKILL.md alone.
  lemma LegacySkill(k: Kind)
    requires k.data.Skill?
    ensures k.data.files.None? || k.data.files == Some([]) ==> SkillFiles(k) == ["SKILL.md"]
    ensures k.data.files.Some? && k.data.files != Some([]) ==> k.data.files == Some(SkillFiles(k))
  {
  }

  ghost predicate SkillsDelivered(log: seq<Command>, objects: map<string, Bytes>, skillsDir: string, kinds: seq<Kind>) {
    forall k <- kinds :: k.data.Skill? ==> SkillDelivered(log, objects, skillsDir, k, SkillFiles(k))
  }

  // Names are checked on creation and unique; manifests may hold anything.
  predicate Injectable(kinds: seq<Kind>) {
    && (forall k <- kinds :: ValidName(k.name))
    && (forall i, j :: 0 <= i < j < |kinds| && kinds[i].data.Skill? && kinds[j].data.Skill? ==>
          kinds[i].name != kinds[j].name)
  }

  lemma SkillsStayDelivered(log: seq<Command>, log': seq<Command>, objects: map<string, Bytes>, skillsDir: string,
                            kinds: seq<Kind>, name: string, files: seq<string>)
    requires log <= log' && WritesOnly(log', |log|, skillsDir, name, files) && '/' !in name
    requires SkillsDelivered(log, objects, skillsDir, kinds)
    requires forall k <- kinds :: k.data.Skill? ==> '/' !in k.name && k.name != name
    ensures SkillsDelivered(log', objects, skillsDir, kinds)
  {
    var more := log'[|log|..];
    assert log' == log + more;
    forall k | k in kinds && k.data.Skill? ensures SkillDelivered(log', objects, skillsDir, k, SkillFiles(k)) {
      forall c, f | c in more && c.WriteFile? && f in SkillFiles(k) ensures c.path != Target(skillsDir, k.name, f) {
        var l :| 0 <= l < |more| && more[l] == c;
        assert log'[|log| + l] == c;
        var g :| g in files && c.path == Target(skillsDir, name, g);
        if c.path == Target(skillsDir, k.name, f) { TargetInjective(skillsDir, name, g, k.name, f); }
      }
      SkillStaysDelivered(log, more, objects, skillsDir, k);
    }
  }

  // Every file written since is one that some skill lists, at its target, or the MCP configuration.
  ghost predicate InjectsOnly(log: seq<Command>, from: nat, taskCwd: string, kinds: seq<Kind>) {
    forall l :: from <= l < |log| && log[l].WriteFile? ==>
      log[l].path == taskCwd + "/.mcp.json" || IsSkillTarget(log[l].path, taskCwd + "/.claude/skills", kinds)
  }

  ghost predicate IsSkillTarget(path: string, skillsDir: string, kinds: seq<Kind>) {
    exists k, f :: k in kinds && k.data.Skill? && f in SkillFiles(k) && path == Target(skillsDir, k.name, f)
  }

  // All active resources of a user, skills first to last and then the MCP configuration. On success every
  // listed file of every skill holds its stored bytes, and the configuration names every MCP server.
  method InjectResources(sandbox: Sandbox, objects: map<string, Bytes>, taskCwd: string, kinds: seq<Kind>,
                         encode: map<string, string> -> Bytes, works: (nat, nat, nat) -> bool, mcpWorks: bool)
    returns (ok: bool)
    requires Injectable(kinds)
    modifies sandbox
    ensures old(sandbox.log) <= sandbox.log
    ensures InjectsOnly(sandbox.log, |old(sandbox.log)|, taskCwd, kinds)
    ensures ok ==> SkillsDelivered(sandbox.log, objects, taskCwd + "/.claude/skills", kinds)
    ensures ok && McpServers(kinds) != map[] ==>
              |sandbox.log| > 0 &&
              sandbox.log[|sandbox.log| - 1] == WriteFile(taskCwd + "/.mcp.json", encode(McpServers(kinds)))
    ensures (&& (forall i: nat, f: nat, n: nat :: works(i, f, n)) && mcpWorks
             && (forall k <- kinds :: AllStored(objects, k))) ==> ok
  {
    var skillsDir := taskCwd + "/.claude/skills";
    var servers: map<string, string> := map[];
    for i := 0 to |kinds|
      invariant servers == McpServers(kinds[..i])
      invariant old(sandbox.log) <= sandbox.log && InjectsOnly(sandbox.log, |old(sandbox.log)|, taskCwd, kinds)
      invariant SkillsDelivered(sandbox.log, objects, skillsDir, kinds[..i])
    {
      var k := kinds[i];
      assert kinds[..i + 1][..i] == kinds[..i] && k in kinds;
      assert kinds[..i + 1] == kinds[..i] + [k];
      match k.data
      case Mcp(config) => servers := servers[k.name := config];
      case Skill(_) =>
        ghost var log := sandbox.log;
        ok := InjectSkill(sandbox, objects, skillsDir, k, (f: nat, n: nat) => works(i, f, n));
        if !ok { return; }
        SkillsStayDelivered(log, sandbox.log, objects, skillsDir, kinds[..i], k.name, SkillFiles(k));
    }
    assert kinds[..|kinds|] == kinds;
    ok := true;
    if servers != map[] {
      ghost var log := sandbox.log;
      var mcpPath := taskCwd + "/.mcp.json";
      ok := sandbox.Do(WriteFile(mcpPath, encode(servers)), mcpWorks);
      if ok {
        McpKeepsSkills(log, objects, taskCwd, kinds, encode(servers));
      }
    }
  }

  // With valid paths nothing is written but the configuration and what lies below the directories of the skills.
  lemma InjectionStaysInside(log: seq<Command>, from: nat, taskCwd: string, kinds: seq<Kind>, l: nat)
    requires Injectable(kinds) && InjectsOnly(log, from, taskCwd, kinds)
    requires forall k <- kinds :: k.data.Skill? ==> forall f <- SkillFiles(k) :: ValidFilePath(f)
    requires from <= l < |log| && log[l].WriteFile? && log[l].path != taskCwd + "/.mcp.json"
    ensures exists k :: k in kinds && k.data.Skill? &&
              Below(Resolve(Segments(taskCwd + "/.claude/skills")) + [k.name], Resolve(Segments(log[l].path)))
  {
    var skillsDir := taskCwd + "/.claude/skills";
    var k, f :| k in kinds && k.data.Skill? && f in SkillFiles(k) && log[l].path == Target(skillsDir, k.name, f);
    TargetStaysInSkillDir(skillsDir, k.name, f);
  }

  // The configuration file is not a target of any skill.
  lemma McpKeepsSkills(log: seq<Command>, objects: map<string, Bytes>, taskCwd: string, kinds: seq<Kind>,
                       content: Bytes)
    requires SkillsDelivered(log, objects, taskCwd + "/.claude/skills", kinds)
    ensures SkillsDelivered(log + [WriteFile(taskCwd + "/.mcp.json", content)], objects,
                            taskCwd + "/.claude/skills", kinds)
  {
    var more := [WriteFile(taskCwd + "/.mcp.json", content)];
    forall k | k in kinds && k.data.Skill?
      ensures SkillDelivered(log + more, objects, taskCwd + "/.claude/skills", k, SkillFiles(k))
    {
      forall f | f in SkillFiles(k) ensures more[0].path != Target(taskCwd + "/.claude/skills", k.name, f) {
        var n := |taskCwd|;
        assert more[0].path[n + 2] == 'm' && Target(taskCwd + "/.claude/skills", k.name, f)[n + 2] == 'c';
      }
      SkillStaysDelivered(log, more, objects, taskCwd + "/.claude/skills", k);
    }
  }

  // What the kinds table holds in any reachable world can be injected, and every file it lists is there:
  // an injection over it fails only if some request fails.
  lemma ReachableIsInjectable(trace: seq<World>, acts: seq<Action>, i: nat, ids: seq<nat>) returns (kinds: seq<Kind>)
    requires Execution(trace, acts) && i < |trace|
    requires forall id <- ids :: id in trace[i].kinds
    requires forall m, n :: 0 <= m < n < |ids| ==> ids[m] != ids[n]
    ensures |kinds| == |ids| && forall n :: 0 <= n < |ids| ==> kinds[n] == trace[i].kinds[ids[n]]
    ensures Injectable(kinds) && forall k <- kinds :: AllStored(trace[i].objects, k)
    ensures forall k <- kinds :: k.data.Skill? ==> forall f <- SkillFiles(k) :: ValidFilePath(f)
  {
    InvAlways(trace, acts, i);
    var s := trace[i];
    kinds := seq(|ids|, n requires 0 <= n < |ids| => s.kinds[ids[n]]);
    forall k | k in kinds
      ensures ValidName(k.name)
      ensures k.data.Skill? ==> forall f <- SkillFiles(k) :: ValidFilePath(f) && k.ofsPath + f in s.objects
    {
      var n :| 0 <= n < |kinds| && kinds[n] == k;
      assert ids[n] in s.kinds;
    }
    forall m, n | 0 <= m < n < |kinds| && kinds[m].data.Skill? && kinds[n].data.Skill?
      ensures kinds[m].name != kinds[n].name
    {
      assert ids[m] in ids && ids[n] in ids;
    }
  }

  /* ---- from the upload to the sandbox ---- */

  lemma {:induction false} FileHasContent(files: seq<File>, f: File)
    requires f in files
    ensures LastContent(files, f.path).Some?
  {
    if f != files[|files| - 1] { FileHasContent(files[..|files| - 1], f); }
  }

  lemma FileIsListed(files: seq<File>, f: File)
    requires f in files
    ensures f.path in [SKILL_MD] + PathsOf(Companions(files))
  {
    if f.path != SKILL_MD {
      var companions := Companions(files);
      var i :| 0 <= i < |companions| && companions[i] == f;
      assert PathsOf(companions)[i] == f.path;
    }
  }

  // Main result: once an uploaded zip has been injected, every file of the zip lies in the sandbox, under the
  // skill's directory, with its bytes; the last ones, if the zip holds a path twice.
  lemma UploadIsDelivered(before: map<string, Bytes>, objects: map<string, Bytes>, k: Kind, raw: seq<File>,
                          log: seq<Command>, skillsDir: string, f: File)
    requires k.data == Skill(Some([SKILL_MD] + PathsOf(Companions(StripWrapper(raw)))))
    requires Stores(before, objects, k.ofsPath, StripWrapper(raw))
    requires SkillDelivered(log, objects, skillsDir, k, SkillFiles(k)) && f in StripWrapper(raw)
    ensures LastContent(StripWrapper(raw), f.path).Some?
    ensures Delivered(log, TargetDir(skillsDir, k.name, f.path), Target(skillsDir, k.name, f.path),
                      LastContent(StripWrapper(raw), f.path).value)
  {
    var files := StripWrapper(raw);
    FileHasContent(files, f);
    FileIsListed(files, f);
    var key := k.ofsPath + f.path;
    assert key[|k.ofsPath|..] == f.path;
    assert Holds(objects, key, Under(k.ofsPath, files, key), before);
  }
}
