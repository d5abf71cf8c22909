/** The replication protocol as a labelled transition system: any number of devices and one
    server (pkg/client/client.go, pkg/client/sync.go, internal/server/sync.go).

    A step is a function of the state and its label; a label that is not enabled changes
    nothing.  A run is any sequence of labels, so retries, lost requests, lost responses,
    abandoned pulls, stalled handlers and clocks that jump are all just runs. */
module Protocol {
  import opened Wrappers
  import opened Vectors
  import opened Hlc
  import opened Oplog
  import opened Conflict
  import opened Store
  import opened Causality

  const PULL_PAGE_SIZE := 100

  // ---------------------------------------------------------------- one device

  /** A client's persistent store, its clock, and its pull checkpoint. */
  datatype Device = Device(st: Store, clock: Timestamp, checkpoint: int)

  const NEW_DEVICE := Device(EMPTY, Timestamp(0, 0, ""), 0)

  /** A put carries its payload, a delete carries none. */
  function WriteKind(existing: Option<Record>, change: Option<string>): Kind {
    if change.None? then Delete
    else if existing.None? || existing.value.deleted then Create
    else Update
  }

  function NewOp(dev: Device, d: string, k: Key, change: Option<string>, id: string, clock: Timestamp): Op {
    var existing := Lookup(dev.st, k);
    var vv := if existing.Some? then existing.value.vv else map[];
    Op(id, d, k.collection, k.recordId, WriteKind(existing, change), change, Bump(vv, d), clock)
  }

  datatype Written = Written(dev: Device, op: Op, ok: bool)

  /** applyLocalWrite.  An op that does not validate is refused after the clock ticked. */
  function LocalWrite(dev: Device, d: string, k: Key, change: Option<string>, id: string, phys: int64): Written {
    var clock := Tick(dev.clock, d, phys);
    var op := NewOp(dev, d, k, change, id, clock);
    if !Validates(op) then
      Written(dev.(clock := clock), op, false)
    else
      var existing := Lookup(dev.st, k);
      var a := Append(dev.st, op, 0, false);
      Written(dev.(clock := clock, st := Put(a.st, Resolve(existing, op).rec)), op, true)
  }

  /** One op of a pulled page: observe its clock, then append and fold it if it is new. */
  function ApplyRow(dev: Device, d: string, row: Row, phys: int64): Device {
    dev.(clock := Receive(dev.clock, row.op.hlc, d, phys),
         st := Ingest(dev.st, row.op, row.serverSeq, false).st)
  }

  // ---------------------------------------------------------------- the system

  /** Where a push handler stands with the op it works on: AppendOp, GetRecord and
      PutRecord are separate statements, and handlers interleave between them. */
  datatype Stage = Ready | Logged(serverSeq: nat) | Loaded(serverSeq: nat, existing: Option<Record>)

  /** A push request the server received: the sender's outbox at the time. */
  datatype Handler = Handler(deviceId: string, batch: seq<Op>, done: nat, stage: Stage)

  /** A pull page the device received, and how much of it is applied. */
  datatype Pulling = Pulling(page: Page, pos: nat)

  /** `past` and `readings` only record what happened: each op's causal past, and every
      wall-clock reading some clock call took. */
  datatype World = World(
    devices: map<string, Device>,
    pulls: map<string, Pulling>,
    server: Store,
    handlers: seq<Handler>,
    past: Past,
    readings: seq<int64>)

  datatype Label =
    | Write(d: string, k: Key, change: Option<string>, id: string, phys: int64)
    | Send(d: string)
    | AppendNext(h: nat)
    | LoadNext(h: nat)
    | SaveNext(h: nat)
    | Acknowledge(h: nat)
    | Fetch(d: string)
    | ApplyNext(d: string, phys: int64)
    | SavePage(d: string)

  function Init(ids: set<string>): World {
    World(map d | d in ids :: NEW_DEVICE, map[], EMPTY, [], map[], [])
  }

  /** A generated op id is one no op has. */
  predicate FreshId(past: Past, id: string) {
    forall p :: p in past ==> p.id != id
  }

  function StepWrite(w: World, d: string, k: Key, change: Option<string>, id: string, phys: int64): World {
    if d in w.devices && FreshId(w.past, id) then
      var dev := w.devices[d];
      var r := LocalWrite(dev, d, k, change, id, phys);
      w.(devices := w.devices[d := r.dev],
         past := if r.ok then w.past[r.op := Elements(Ops(dev.st.oplog))] else w.past,
         readings := w.readings + [phys])
    else w
  }

  /** Push sends nothing when the outbox is empty. */
  function StepSend(w: World, d: string): World {
    if d in w.devices && Outbox(w.devices[d].st.oplog, d) != [] then
      w.(handlers := w.handlers + [Handler(d, Outbox(w.devices[d].st.oplog, d), 0, Ready)])
    else w
  }

  predicate Working(w: World, h: nat) {
    h < |w.handlers| && w.handlers[h].done < |w.handlers[h].batch|
  }

  function Current(w: World, h: nat): Op
    requires Working(w, h)
  {
    w.handlers[h].batch[w.handlers[h].done]
  }

  function SetHandler(w: World, h: nat, done: nat, stage: Stage): World
    requires h < |w.handlers|
  {
    w.(handlers := w.handlers[h := w.handlers[h].(done := done, stage := stage)])
  }

  /** The handler refuses an op that does not validate or is not its device's. */
  predicate Admissible(op: Op, d: string) {
    Validates(op) && op.deviceId == d
  }

  function StepAppend(w: World, h: nat): World {
    if Working(w, h) && w.handlers[h].stage.Ready? && Admissible(Current(w, h), w.handlers[h].deviceId) then
      var a := Append(w.server, Current(w, h), 0, true);
      if a.inserted then
        SetHandler(w, h, w.handlers[h].done, Logged(a.serverSeq)).(server := a.st)
      else
        SetHandler(w, h, w.handlers[h].done + 1, Ready)
    else w
  }

  function StepLoad(w: World, h: nat): World {
    if Working(w, h) && w.handlers[h].stage.Logged? then
      SetHandler(w, h, w.handlers[h].done,
        Loaded(w.handlers[h].stage.serverSeq, Lookup(w.server, KeyOf(Current(w, h)))))
    else w
  }

  function StepSave(w: World, h: nat): World {
    if Working(w, h) && w.handlers[h].stage.Loaded? then
      var op, s := Current(w, h), w.handlers[h].stage;
      SetHandler(w, h, w.handlers[h].done + 1, Ready)
        .(server := Settle(w.server, Resolve(s.existing, op), op, s.serverSeq))
    else w
  }

  function Ids(xs: seq<Op>): (ids: seq<string>)
    ensures |ids| == |xs| && forall i :: 0 <= i < |xs| ==> ids[i] == xs[i].id
  {
    seq(|xs|, i requires 0 <= i < |xs| => xs[i].id)
  }

  /** The response of a handler that finished its batch reaches the device. */
  function StepAcknowledge(w: World, h: nat): World {
    if h < |w.handlers| && w.handlers[h].done == |w.handlers[h].batch| && w.handlers[h].deviceId in w.devices then
      var d := w.handlers[h].deviceId;
      w.(devices := w.devices[d := w.devices[d].(st := MarkAll(w.devices[d].st, Ids(w.handlers[h].batch)))])
    else w
  }

  function StepFetch(w: World, d: string): World {
    if d in w.devices then
      w.(pulls := w.pulls[d :=
        Pulling(PageSince(w.server.oplog, w.devices[d].checkpoint, "", PULL_PAGE_SIZE), 0)])
    else w
  }

  function StepApply(w: World, d: string, phys: int64): World {
    if d in w.devices && d in w.pulls && w.pulls[d].pos < |w.pulls[d].page.rows|
       && Validates(w.pulls[d].page.rows[w.pulls[d].pos].op)
    then
      w.(devices := w.devices[d := ApplyRow(w.devices[d], d, w.pulls[d].page.rows[w.pulls[d].pos], phys)],
         pulls := w.pulls[d := w.pulls[d].(pos := w.pulls[d].pos + 1)],
         readings := w.readings + [phys])
    else w
  }

  function StepSavePage(w: World, d: string): World {
    if d in w.devices && d in w.pulls && w.pulls[d].pos == |w.pulls[d].page.rows| then
      w.(devices := w.devices[d := w.devices[d].(checkpoint := w.pulls[d].page.next)],
         pulls := w.pulls - {d})
    else w
  }

  function Step(w: World, l: Label): World {
    match l
    case Write(d, k, change, id, phys) => StepWrite(w, d, k, change, id, phys)
    case Send(d) => StepSend(w, d)
    case AppendNext(h) => StepAppend(w, h)
    case LoadNext(h) => StepLoad(w, h)
    case SaveNext(h) => StepSave(w, h)
    case Acknowledge(h) => StepAcknowledge(w, h)
    case Fetch(d) => StepFetch(w, d)
    case ApplyNext(d, phys) => StepApply(w, d, phys)
    case SavePage(d) => StepSavePage(w, d)
  }

  /** The state after the labels of `run`, in order. */
  function Run(w: World, run: seq<Label>): World {
    if run == [] then w
    else Step(Run(w, run[..|run| - 1]), run[|run| - 1])
  }

  lemma RunNone(w: World)
    ensures Run(w, []) == w
  {
  }

  lemma RunOne(w: World, l: Label)
    ensures Run(w, [l]) == Step(w, l)
  {
    assert [l][..0] == [];
    RunNone(w);
  }

  lemma {:induction false} RunConcat(w: World, a: seq<Label>, b: seq<Label>)
    ensures Run(w, a + b) == Run(Run(w, a), b)
  {
    if b == [] {
      assert a + b == a;
    } else {
      var n := |b| - 1;
      RunConcat(w, a, b[..n]);
      assert (a + b)[..|a + b| - 1] == a + b[..n];
    }
  }
}
