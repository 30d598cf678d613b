/** The mutating operations of a task over its three stores: the process itself, an all-Redis hash, and
    MySQL with a Redis sandbox hash. One caller, no I/O failure: the interleavings and failures of the
    MySQL store are in ProvisioningProtocol. */
module TaskOps {
  import opened TaskTypes
  import opened Wrappers

  /* ---- values ---- */

  // The mutable fields of a Task struct.
  datatype Fields = Fields(state: State, sandboxId: string, baseUrl: string, headers: Headers,
                           sessionId: string, errorMsg: string, provisioned: bool)

  // Field names and values of the hash task:{id}.
  datatype RedisField = FState | FSandboxId | FBaseUrl | FHeaders | FSessionId | FProvisioned | FErrorMsg
  datatype RedisValue = Text(text: string) | Number(state: State) | Json(json: HeadersJson) | Flag(on: bool)
  type RedisHash = map<RedisField, RedisValue>

  datatype Backend =
    | InProcess
    | MySql(row: Row, hash: Option<SandboxHash>)
    | Redis(hash': RedisHash)

  // A task handle together with the store behind it.
  datatype Snapshot = Snapshot(fields: Fields, backend: Backend)

  datatype Liveness = Alive | Dead | CheckFailed

  // What a provisioning callback does: SetRunning with a route, or not, and then nil or an error.
  datatype Callback = Callback(route: Option<Route>, ok: bool)

  datatype Op =
    | SetProvisioning
    | SetError(msg: string)
    | SetSessionId(id: string)
    | EnsureProvisioned(fn: Callback)
    | ResetIfExpired(isAlive: string -> Liveness)
    | ResetForReprovisioning

  /* ---- the durable half of each operation ---- */

  function Text0(h: RedisHash, f: RedisField): string {
    if f in h && h[f].Text? then h[f].text else ""
  }

  predicate RedisProvisioned(h: RedisHash) { FProvisioned in h && h[FProvisioned] == Flag(true) }

  predicate RedisRunning(h: RedisHash) { FState in h && h[FState] == Number(Running) }

  const REDIS_CLEARED: RedisHash :=
    map[FState := Number(New), FSandboxId := Text(""), FBaseUrl := Text(""),
        FHeaders := Json(Object(map[])), FProvisioned := Flag(false)]

  function PersistState(b: Backend, state: State): Backend {
    match b
    case InProcess => b
    case MySql(row, _) => b.(row := row.(state := state))
    case Redis(h) => Redis(h[FState := Number(state)])
  }

  function PersistError(b: Backend, msg: string): Backend {
    match b
    case InProcess => b
    case MySql(row, _) => b.(row := row.(state := Error, errorMsg := msg))
    case Redis(h) => Redis(h[FState := Number(Error)][FErrorMsg := Text(msg)])
  }

  function PersistRunning(b: Backend, r: Route): Backend {
    match b
    case InProcess => b
    case MySql(row, _) =>
      MySql(row.(state := Running), Some(SandboxHash(r.sandboxId, r.baseUrl, Marshal(r.headers))))
    case Redis(h) =>
      Redis(h + map[FState := Number(Running), FSandboxId := Text(r.sandboxId),
                    FBaseUrl := Text(r.baseUrl), FHeaders := Json(Marshal(r.headers))])
  }

  // The write-once check-and-set: in Redis an absent field is not the empty string.
  predicate AcceptsSession(s: Snapshot) {
    match s.backend
    case InProcess => s.fields.sessionId == ""
    case MySql(row, _) => row.sessionId == ""
    case Redis(h) => FSessionId in h && h[FSessionId] == Text("")
  }

  function PersistSession(b: Backend, id: string): Backend {
    match b
    case InProcess => b
    case MySql(row, _) => b.(row := row.(sessionId := id))
    case Redis(h) => Redis(h[FSessionId := Text(id)])
  }

  predicate IsProvisioned(s: Snapshot) {
    match s.backend
    case InProcess => s.fields.provisioned
    case MySql(row, _) => row.provisioned
    case Redis(h) => RedisProvisioned(h)
  }

  // The check each store makes after the callback returned nil.
  predicate Verified(s: Snapshot) {
    match s.backend
    case InProcess => true
    case MySql(row, hash) => row.state == Running && Mapped(hash)
    case Redis(h) => RedisRunning(h)
  }

  function Commit(s: Snapshot): Snapshot {
    match s.backend
    case InProcess => s.(fields := s.fields.(provisioned := true))
    case MySql(row, _) => s.(backend := s.backend.(row := row.(provisioned := true)))
    case Redis(h) => s.(backend := Redis(h[FProvisioned := Flag(true)]))
  }

  function StoredSandbox(s: Snapshot): string {
    match s.backend
    case InProcess => s.fields.sandboxId
    case MySql(_, hash) => if hash.Some? then hash.value.sandboxId else ""
    case Redis(h) => Text0(h, FSandboxId)
  }

  function Cleared(s: Snapshot): Snapshot {
    Snapshot(
      s.fields.(state := New, sandboxId := "", baseUrl := "", headers := Nil, provisioned := false),
      match s.backend
      case InProcess => InProcess
      case MySql(row, _) => MySql(row.(state := New, provisioned := false), None)
      case Redis(h) => Redis(h + REDIS_CLEARED))
  }

  /* ---- the operations ---- */

  function AfterSetRunning(s: Snapshot, r: Route): Snapshot {
    Snapshot(s.fields.(state := Running, sandboxId := r.sandboxId, baseUrl := r.baseUrl, headers := r.headers),
             PersistRunning(s.backend, r))
  }

  function AfterCallback(s: Snapshot, fn: Callback): Snapshot {
    if fn.route.Some? then AfterSetRunning(s, fn.route.value) else s
  }

  // The liveness check runs only on a provisioned task whose store names a sandbox.
  predicate ChecksLiveness(s: Snapshot) {
    IsProvisioned(s) && StoredSandbox(s) != ""
  }

  function Step(s: Snapshot, op: Op): Snapshot {
    match op
    case SetProvisioning => Snapshot(s.fields.(state := Provisioning), PersistState(s.backend, Provisioning))
    case SetError(msg) => Snapshot(s.fields.(state := Error, errorMsg := msg), PersistError(s.backend, msg))
    case SetSessionId(id) =>
      if AcceptsSession(s) then Snapshot(s.fields.(sessionId := id), PersistSession(s.backend, id)) else s
    case EnsureProvisioned(fn) =>
      if IsProvisioned(s) then s
      else
        var t := AfterCallback(s, fn);
        if fn.ok && Verified(t) then Commit(t) else t
    case ResetIfExpired(isAlive) =>
      if ChecksLiveness(s) && isAlive(StoredSandbox(s)).Dead? then Cleared(s) else s
    case ResetForReprovisioning => Cleared(s)
  }

  // Whether the call returns a nil error.
  predicate Succeeds(s: Snapshot, op: Op) {
    match op
    case EnsureProvisioned(fn) => IsProvisioned(s) || (fn.ok && Verified(AfterCallback(s, fn)))
    case ResetIfExpired(isAlive) => ChecksLiveness(s) ==> !isAlive(StoredSandbox(s)).CheckFailed?
    case _ => true
  }

  /* ---- creation and reload ---- */

  datatype Ops = NoOps | RedisOps | MySqlOps

  const NEW_FIELDS := Fields(New, "", "", Nil, "", "", false)

  function Created(ops: Ops): Snapshot {
    Snapshot(NEW_FIELDS,
             match ops
             case NoOps => InProcess
             case MySqlOps => MySql(Row(New, false, "", ""), None)
             case RedisOps => Redis(REDIS_CLEARED[FSessionId := Text("")]))
  }

  // What a caller can read of a task: Info, the proxy route, the error message and the flag.
  datatype View = View(state: State, sandboxId: string, baseUrl: string, headers: map<string, string>,
                       sessionId: string, errorMsg: string, provisioned: bool)

  function Seen(f: Fields): View {
    View(f.state, f.sandboxId, f.baseUrl, Pairs(f.headers), f.sessionId, f.errorMsg, f.provisioned)
  }

  function Loaded(s: Snapshot): Fields {
    match s.backend
    case InProcess => s.fields
    case MySql(row, hash) =>
      var h := if hash.Some? then hash.value else SandboxHash("", "", Null);
      Fields(row.state, h.sandboxId, h.baseUrl, Unmarshal(h.headers), row.sessionId, row.errorMsg, row.provisioned)
    case Redis(h) =>
      Fields(if FState in h && h[FState].Number? then h[FState].state else New,
             Text0(h, FSandboxId), Text0(h, FBaseUrl),
             if FHeaders in h && h[FHeaders].Json? then Unmarshal(h[FHeaders].json) else Nil,
             Text0(h, FSessionId), Text0(h, FErrorMsg), RedisProvisioned(h))
  }

  function Reload(s: Snapshot): View { Seen(Loaded(s)) }

  function Run(s: Snapshot, ops: seq<Op>): Snapshot {
    if ops == [] then s else Step(Run(s, ops[..|ops| - 1]), ops[|ops| - 1])
  }

  // Redis hashes keep the session field and typed values that Create wrote.
  predicate Shaped(s: Snapshot) {
    s.backend.Redis? ==>
      var h := s.backend.hash';
      && FSessionId in h && h[FSessionId].Text?
      && FState in h && h[FState].Number?
  }

  /* ---- what an operation does to the view ---- */

  function ViewAfterCallback(v: View, fn: Callback): View {
    match fn.route
    case None => v
    case Some(r) => v.(state := Running, sandboxId := r.sandboxId, baseUrl := r.baseUrl, headers := Pairs(r.headers))
  }

  predicate ViewVerified(v: View, kind: Ops) {
    match kind
    case NoOps => true
    case RedisOps => v.state == Running
    case MySqlOps => v.state == Running && v.sandboxId != ""
  }

  predicate ViewChecksLiveness(v: View) { v.provisioned && v.sandboxId != "" }

  // The store kinds differ only in what they verify before they commit.
  function ViewStep(v: View, op: Op, kind: Ops): View {
    match op
    case SetProvisioning => v.(state := Provisioning)
    case SetError(msg) => v.(state := Error, errorMsg := msg)
    case SetSessionId(id) => if v.sessionId == "" then v.(sessionId := id) else v
    case EnsureProvisioned(fn) =>
      if v.provisioned then v
      else
        var w := ViewAfterCallback(v, fn);
        w.(provisioned := fn.ok && ViewVerified(w, kind))
    case ResetIfExpired(isAlive) =>
      if ViewChecksLiveness(v) && isAlive(v.sandboxId).Dead? then ViewCleared(v) else v
    case ResetForReprovisioning => ViewCleared(v)
  }

  function ViewCleared(v: View): View {
    v.(state := New, sandboxId := "", baseUrl := "", headers := map[], provisioned := false)
  }

  predicate ViewSucceeds(v: View, op: Op, kind: Ops) {
    match op
    case EnsureProvisioned(fn) => v.provisioned || (fn.ok && ViewVerified(ViewAfterCallback(v, fn), kind))
    case ResetIfExpired(isAlive) => ViewChecksLiveness(v) ==> !isAlive(v.sandboxId).CheckFailed?
    case _ => true
  }

  function KindOf(s: Snapshot): Ops {
    match s.backend
    case InProcess => NoOps
    case MySql(_, _) => MySqlOps
    case Redis(_) => RedisOps
  }

  lemma ReloadAfterSetRunning(s: Snapshot, r: Route)
    ensures Reload(AfterSetRunning(s, r)) == ViewAfterCallback(Reload(s), Callback(Some(r), true))
  {
  }

  lemma ReloadAfterCallback(s: Snapshot, fn: Callback)
    ensures Reload(AfterCallback(s, fn)) == ViewAfterCallback(Reload(s), fn)
    ensures Verified(AfterCallback(s, fn)) <==> ViewVerified(ViewAfterCallback(Reload(s), fn), KindOf(s))
  {
    if fn.route.Some? { ReloadAfterSetRunning(s, fn.route.value); }
  }

  lemma ReloadAfterCommit(s: Snapshot)
    ensures Reload(Commit(s)) == Reload(s).(provisioned := true)
  {
  }

  lemma ReloadAfterClear(s: Snapshot)
    ensures Reload(Cleared(s)) == ViewCleared(Reload(s))
  {
  }

  lemma ReloadAfterSession(s: Snapshot, id: string)
    requires Shaped(s)
    ensures Reload(Step(s, SetSessionId(id))) == ViewStep(Reload(s), SetSessionId(id), KindOf(s))
  {
  }

  lemma ReloadAfterError(s: Snapshot, msg: string)
    ensures Reload(Step(s, SetError(msg))) == ViewStep(Reload(s), SetError(msg), KindOf(s))
  {
  }

  lemma ReloadAfterProvisioning(s: Snapshot)
    ensures Reload(Step(s, SetProvisioning)) == ViewStep(Reload(s), SetProvisioning, KindOf(s))
  {
  }

  lemma StepKeepsShape(s: Snapshot, op: Op)
    requires Shaped(s)
    ensures Shaped(Step(s, op)) && KindOf(Step(s, op)) == KindOf(s)
  {
  }

  // Every store's operation, read back, is the operation on the view.
  lemma {:induction false} ReloadAfterStep(s: Snapshot, op: Op)
    requires Shaped(s)
    ensures Reload(Step(s, op)) == ViewStep(Reload(s), op, KindOf(s))
    ensures Succeeds(s, op) <==> ViewSucceeds(Reload(s), op, KindOf(s))
    ensures Shaped(Step(s, op)) && KindOf(Step(s, op)) == KindOf(s)
  {
    StepKeepsShape(s, op);
    match op
    case SetError(msg) => ReloadAfterError(s, msg);
    case SetSessionId(id) => ReloadAfterSession(s, id);
    case EnsureProvisioned(fn) =>
      ReloadAfterCallback(s, fn);
      ReloadAfterCommit(AfterCallback(s, fn));
    case ResetIfExpired(_) => ReloadAfterClear(s);
    case ResetForReprovisioning => ReloadAfterClear(s);
    case SetProvisioning => ReloadAfterProvisioning(s);
  }

  // On every store, what each call changes of what can be read, field by field.
  lemma WritesAreSeen(s: Snapshot, msg: string, id: string)
    requires Shaped(s)
    ensures Reload(Step(s, SetProvisioning)) == Reload(s).(state := Provisioning)
    ensures Reload(Step(s, SetError(msg))) == Reload(s).(state := Error, errorMsg := msg)
    ensures Reload(Step(s, SetSessionId(id))) ==
              if Reload(s).sessionId == "" then Reload(s).(sessionId := id) else Reload(s)
  {
    ReloadAfterStep(s, SetProvisioning);
    ReloadAfterStep(s, SetError(msg));
    ReloadAfterStep(s, SetSessionId(id));
  }

  // A provisioned task stays as it is; any other takes the route that the callback set, is then running, and is
  // provisioned if the callback succeeded.
  lemma ProvisioningIsSeen(s: Snapshot, fn: Callback)
    requires Shaped(s) && WellBehaved(EnsureProvisioned(fn))
    ensures var v, w := Reload(s), Reload(Step(s, EnsureProvisioned(fn)));
            && (v.provisioned ==> w == v)
            && (!v.provisioned && fn.route.Some? ==>
                  var r := fn.route.value;
                  w == View(Running, r.sandboxId, r.baseUrl, Pairs(r.headers), v.sessionId, v.errorMsg, fn.ok))
            && (!v.provisioned && fn.route.None? ==> w == v)
    ensures Succeeds(s, EnsureProvisioned(fn)) <==> Reload(s).provisioned || fn.ok
  {
    ReloadAfterStep(s, EnsureProvisioned(fn));
  }

  // A reset takes back all that provisioning gave, and keeps session and error; by expiry, exactly when the task is
  // provisioned, names a sandbox, and this is found dead.
  lemma ResetsAreSeen(s: Snapshot, isAlive: string -> Liveness)
    requires Shaped(s)
    ensures var v := Reload(s);
            var cleared := View(New, "", "", map[], v.sessionId, v.errorMsg, false);
            && Reload(Step(s, ResetForReprovisioning)) == cleared
            && Reload(Step(s, ResetIfExpired(isAlive))) ==
                 if v.provisioned && v.sandboxId != "" && isAlive(v.sandboxId).Dead? then cleared else v
  {
    ReloadAfterStep(s, ResetForReprovisioning);
    ReloadAfterStep(s, ResetIfExpired(isAlive));
  }

  /* ---- the three stores agree ---- */

  // A callback that returns nil has called SetRunning with a sandbox id.
  predicate WellBehaved(op: Op) {
    op.EnsureProvisioned? && op.fn.ok ==> op.fn.route.Some? && op.fn.route.value.sandboxId != ""
  }

  lemma {:induction false} RunFollowsView(kind: Ops, ops: seq<Op>)
    ensures var s := Run(Created(kind), ops);
            && Shaped(s) && KindOf(s) == kind && Reload(s) == ViewRun(ops, kind)
  {
    if ops != [] {
      RunFollowsView(kind, ops[..|ops| - 1]);
      ReloadAfterStep(Run(Created(kind), ops[..|ops| - 1]), ops[|ops| - 1]);
    }
  }

  function ViewRun(ops: seq<Op>, kind: Ops): View {
    if ops == [] then Seen(NEW_FIELDS)
    else ViewStep(ViewRun(ops[..|ops| - 1], kind), ops[|ops| - 1], kind)
  }

  lemma {:induction false} ViewRunsAgree(ops: seq<Op>, kind: Ops)
    requires forall op <- ops :: WellBehaved(op)
    ensures ViewRun(ops, kind) == ViewRun(ops, NoOps)
  {
    if ops != [] {
      ViewRunsAgree(ops[..|ops| - 1], kind);
      assert ops[|ops| - 1] in ops;
    }
  }

  // Main result: whatever single-caller sequence runs, a task reloaded from MySQL and Redis, or from
  // Redis alone, reads like the in-process one, and the next call answers alike.
  lemma {:induction false} BackendsAgree(ops: seq<Op>, next: Op, kind: Ops)
    requires forall op <- ops :: WellBehaved(op)
    requires WellBehaved(next)
    ensures var mem, stored := Run(Created(NoOps), ops), Run(Created(kind), ops);
            && Reload(mem) == Reload(stored)
            && (Succeeds(mem, next) <==> Succeeds(stored, next))
  {
    RunFollowsView(NoOps, ops);
    RunFollowsView(kind, ops);
    ViewRunsAgree(ops, kind);
    ReloadAfterStep(Run(Created(NoOps), ops), next);
    ReloadAfterStep(Run(Created(kind), ops), next);
  }

  // Without WellBehaved the stores part company, and exactly here: a nil callback that left no
  // running state, or for MySQL no sandbox id, is committed in process only.
  lemma {:induction false} EnsureAgreesExactly(a: Snapshot, b: Snapshot, fn: Callback)
    requires Shaped(a) && Shaped(b) && a.backend.InProcess? && !b.backend.InProcess?
    requires Reload(a) == Reload(b)
    ensures var op := EnsureProvisioned(fn);
            var state := if fn.route.Some? then Running else Reload(a).state;
            var sandbox := if fn.route.Some? then fn.route.value.sandboxId else Reload(a).sandboxId;
            Reload(Step(a, op)) == Reload(Step(b, op)) <==>
              || Reload(a).provisioned || !fn.ok
              || (state == Running && (b.backend.MySql? ==> sandbox != ""))
  {
    ReloadAfterStep(a, EnsureProvisioned(fn));
    ReloadAfterStep(b, EnsureProvisioned(fn));
    var v := ViewStep(Reload(a), EnsureProvisioned(fn), NoOps);
    var w := ViewStep(Reload(b), EnsureProvisioned(fn), KindOf(b));
    assert v == w <==> v.provisioned == w.provisioned;
  }

  // The live handle itself reads like a reload, but for the flag that only the store keeps.
  predicate InSync(s: Snapshot) {
    Seen(s.fields).(provisioned := IsProvisioned(s)) == Reload(s)
  }

  lemma {:induction false} StepKeepsSync(s: Snapshot, op: Op)
    requires Shaped(s) && InSync(s)
    ensures InSync(Step(s, op))
  {
    ReloadAfterStep(s, op);
    var v := Seen(Step(s, op).fields);
    assert v.(provisioned := false) == ViewStep(Reload(s), op, KindOf(s)).(provisioned := false) by {
      match op
      case EnsureProvisioned(fn) =>
      case _ =>
    }
    assert IsProvisioned(Step(s, op)) == Reload(Step(s, op)).provisioned;
  }

  lemma {:induction false} HandleMatchesReload(ops: seq<Op>, kind: Ops)
    ensures InSync(Run(Created(kind), ops))
  {
    if ops != [] {
      HandleMatchesReload(ops[..|ops| - 1], kind);
      RunFollowsView(kind, ops[..|ops| - 1]);
      StepKeepsSync(Run(Created(kind), ops[..|ops| - 1]), ops[|ops| - 1]);
    }
  }

  // A session id, once set, survives every operation on every store, resets included.
  lemma {:induction false} SessionSurvives(s: Snapshot, ops: seq<Op>)
    requires Shaped(s) && Reload(s).sessionId != ""
    ensures Shaped(Run(s, ops)) && Reload(Run(s, ops)).sessionId == Reload(s).sessionId
  {
    if ops != [] {
      SessionSurvives(s, ops[..|ops| - 1]);
      ReloadAfterStep(Run(s, ops[..|ops| - 1]), ops[|ops| - 1]);
    }
  }

  /* ---- the Task object ---- */

  class Task {
    const ops: Ops
    var state: State
    var sandboxId: string
    var proxyBaseUrl: string
    var proxyHeaders: Headers
    var sessionId: string
    var errorMsg: string
    var provisioned: bool
    // The stores behind ops; a task uses the ones its ops name.
    var row: Row
    var sandboxHash: Option<SandboxHash>
    var redisHash: RedisHash

    ghost function Value(): Snapshot
      reads this
    {
      Snapshot(Fields(state, sandboxId, proxyBaseUrl, proxyHeaders, sessionId, errorMsg, provisioned),
               match ops
               case NoOps => InProcess
               case MySqlOps => MySql(row, sandboxHash)
               case RedisOps => Redis(redisHash))
    }

    constructor (ops: Ops)
      ensures Value() == Created(ops)
    {
      this.ops := ops;
      state, sandboxId, proxyBaseUrl, proxyHeaders := New, "", "", Nil;
      sessionId, errorMsg, provisioned := "", "", false;
      row, sandboxHash := Row(New, false, "", ""), None;
      redisHash := REDIS_CLEARED[FSessionId := Text("")];
    }

    method SetRunning(r: Route)
      modifies this
      ensures Value() == AfterSetRunning(old(Value()), r)
    {
      state, sandboxId, proxyBaseUrl, proxyHeaders := Running, r.sandboxId, r.baseUrl, r.headers;
      match ops
      case NoOps =>
      case MySqlOps =>
        row := row.(state := Running);
        sandboxHash := Some(SandboxHash(r.sandboxId, r.baseUrl, Marshal(r.headers)));
      case RedisOps =>
        redisHash := redisHash + map[FState := Number(Running), FSandboxId := Text(r.sandboxId),
                                     FBaseUrl := Text(r.baseUrl), FHeaders := Json(Marshal(r.headers))];
    }

    method SetProvisioning()
      modifies this
      ensures Value() == Step(old(Value()), Op.SetProvisioning)
    {
      state := Provisioning;
      match ops
      case NoOps =>
      case MySqlOps => row := row.(state := Provisioning);
      case RedisOps => redisHash := redisHash[FState := Number(Provisioning)];
    }

    method SetError(msg: string)
      modifies this
      ensures Value() == Step(old(Value()), Op.SetError(msg))
    {
      state, errorMsg := Error, msg;
      match ops
      case NoOps =>
      case MySqlOps => row := row.(state := Error, errorMsg := msg);
      case RedisOps => redisHash := redisHash[FState := Number(Error)][FErrorMsg := Text(msg)];
    }

    // The conditional UPDATE and the Lua script: write only over an empty session id.
    method PersistSessionId(id: string) returns (written: bool)
      requires !ops.NoOps?
      modifies this`row, this`redisHash
      ensures written == AcceptsSession(old(Value()))
      ensures Value() == if written then Snapshot(old(Value()).fields, PersistSession(old(Value()).backend, id))
                         else old(Value())
    {
      match ops
      case MySqlOps =>
        written := row.sessionId == "";
        if written { row := row.(sessionId := id); }
      case RedisOps =>
        written := FSessionId in redisHash && redisHash[FSessionId] == Text("");
        if written { redisHash := redisHash[FSessionId := Text(id)]; }
    }

    method SetSessionId(id: string)
      modifies this
      ensures Value() == Step(old(Value()), Op.SetSessionId(id))
    {
      if !ops.NoOps? {
        var written := PersistSessionId(id);
        if written { sessionId := id; }
        return;
      }
      if sessionId == "" { sessionId := id; }
    }

    method RunCallback(fn: Callback) returns (ok: bool)
      modifies this
      ensures Value() == AfterCallback(old(Value()), fn) && ok == fn.ok
    {
      if fn.route.Some? { SetRunning(fn.route.value); }
      ok := fn.ok;
    }

    method EnsureProvisioned(fn: Callback) returns (ok: bool)
      modifies this
      ensures Value() == Step(old(Value()), Op.EnsureProvisioned(fn))
      ensures ok == Succeeds(old(Value()), Op.EnsureProvisioned(fn))
    {
      match ops
      case NoOps =>
        if provisioned { return true; }
        ok := RunCallback(fn);
        if ok { provisioned := true; }
      case MySqlOps =>
        if row.provisioned { return true; }
        ok := RunCallback(fn);
        if !ok { return false; }
        if row.state != Running { return false; }
        if sandboxHash.None? || sandboxHash.value.sandboxId == "" { return false; }
        row := row.(provisioned := true);
      case RedisOps =>
        if FProvisioned in redisHash && redisHash[FProvisioned] == Flag(true) { return true; }
        ok := RunCallback(fn);
        if !ok { return false; }
        if FState !in redisHash || redisHash[FState] != Number(Running) { return false; }
        redisHash := redisHash[FProvisioned := Flag(true)];
    }

    // resetLocked and the stores' own clearing writes.
    method ClearSandbox()
      modifies this
      ensures Value() == Cleared(old(Value()))
    {
      match ops {
        case NoOps =>
        case MySqlOps =>
          row := row.(state := New, provisioned := false);
          sandboxHash := None;
        case RedisOps => redisHash := redisHash + REDIS_CLEARED;
      }
      state, sandboxId, proxyBaseUrl, proxyHeaders := New, "", "", Nil;
      provisioned := false;
    }

    method ResetForReprovisioning()
      modifies this
      ensures Value() == Step(old(Value()), Op.ResetForReprovisioning)
    {
      ClearSandbox();
    }

    method ResetIfExpired(isAlive: string -> Liveness) returns (ok: bool)
      modifies this
      ensures Value() == Step(old(Value()), Op.ResetIfExpired(isAlive))
      ensures ok == Succeeds(old(Value()), Op.ResetIfExpired(isAlive))
    {
      var isSet, sandbox := provisioned, sandboxId;
      match ops {
        case NoOps =>
        case MySqlOps =>
          isSet := row.provisioned;
          sandbox := if sandboxHash.Some? then sandboxHash.value.sandboxId else "";
        case RedisOps =>
          isSet := FProvisioned in redisHash && redisHash[FProvisioned] == Flag(true);
          sandbox := Text0(redisHash, FSandboxId);
      }
      if !isSet || sandbox == "" { return true; }
      var alive := isAlive(sandbox);
      if alive.CheckFailed? { return false; }
      if alive.Dead? { ClearSandbox(); }
      ok := true;
    }
  }
}
