/**
 Config delivery over lossy heartbeats, for one device: operators queue configs, the agent's heartbeats carry
 reports, requests are processed late or never, responses get lost, and the agent may crash at any time.
 */
module FleetProtocol {
  import opened Basics

  datatype Config = Config(document: int)

  datatype Report = Report(version: int, success: bool)

  /** A config-history row; `verdict` is its apply_success. */
  datatype HistoryRow = HistoryRow(version: int, config: Config, verdict: Option<bool>)

  /** The delivery columns of a device row, with its config history. */
  datatype Device = Device(pending: Option<Config>, version: nat, history: seq<HistoryRow>, lastApply: Option<Report>)

  datatype Delivery = Delivery(config: Config, version: nat)

  /** How far the manager got with a request: the route is two transactions. */
  datatype Stage = Sent | Recorded | Answered(delivery: Option<Delivery>)

  datatype Request = Request(report: Option<Report>, stage: Stage)

  /**
   The agent: its pending report, the request it awaits, the config it last wrote (none while the file's state is
   unknown), every version it has ever handled, and the reports it has made since it last started.
   */
  datatype Agent = Agent(report: Option<Report>, current: Option<nat>, file: Option<Config>, handled: seq<nat>, made: seq<Report>)

  /** `takes` lists the versions handed out, in order. */
  datatype Link = Link(device: Device, requests: seq<Request>, agent: Agent, takes: seq<nat>)

  datatype Action =
    | Queue(config: Config)
    | Send
    | Record(i: nat)
    | Take(i: nat)
    | Receive(writeOk: bool)
    | GiveUp
    | Crash

  // ---------- the registry's transactions ----------

  function QueueConfig(d: Device, config: Config): Device {
    d.(pending := Some(config), version := d.version + 1,
       history := d.history + [HistoryRow(d.version + 1, config, None)])
  }

  function Marked(history: seq<HistoryRow>, r: Report): seq<HistoryRow> {
    seq(|history|, i requires 0 <= i < |history| =>
      if history[i].version == r.version then history[i].(verdict := Some(r.success)) else history[i])
  }

  function RecordHeartbeat(d: Device, report: Option<Report>): Device {
    if report.None? then d else d.(lastApply := report, history := Marked(d.history, report.value))
  }

  function TakePending(d: Device): (Device, Option<Delivery>) {
    if d.pending.None? then (d, None) else (d.(pending := None), Some(Delivery(d.pending.value, d.version)))
  }

  // ---------- the agent ----------

  /**
   A good response clears the report that went with the request; a config in it is validated, then written. A
   write error leaves no report.
   */
  function Handle(a: Agent, delivery: Option<Delivery>, valid: Config -> bool, writeOk: bool): Agent {
    var idle := a.(report := None, current := None);
    if delivery.None? then idle
    else
      var Delivery(config, version) := delivery.value;
      var seen := idle.(handled := a.handled + [version]);
      if !valid(config) then Reporting(seen, Report(version, false))
      else if !writeOk then seen.(file := None)
      else Reporting(seen.(file := Some(config)), Report(version, true))
  }

  function Reporting(a: Agent, r: Report): Agent {
    a.(report := Some(r), made := a.made + [r])
  }

  // ---------- steps ----------

  predicate Enabled(l: Link, a: Action) {
    match a
    case Queue(_) => true
    case Send => l.agent.current.None?
    case Record(i) => i < |l.requests| && l.requests[i].stage.Sent?
    case Take(i) => i < |l.requests| && l.requests[i].stage.Recorded?
    case Receive(_) =>
      && l.agent.current.Some? && l.agent.current.value < |l.requests|
      && l.requests[l.agent.current.value].stage.Answered?
    case GiveUp => l.agent.current.Some?
    case Crash => true
  }

  function Step(l: Link, valid: Config -> bool, a: Action): Link
    requires Enabled(l, a)
  {
    match a
    case Queue(config) => l.(device := QueueConfig(l.device, config))
    case Send =>
      l.(requests := l.requests + [Request(l.agent.report, Sent)], agent := l.agent.(current := Some(|l.requests|)))
    case Record(i) =>
      l.(device := RecordHeartbeat(l.device, l.requests[i].report), requests := l.requests[i := l.requests[i].(stage := Recorded)])
    case Take(i) =>
      var (d, delivery) := TakePending(l.device);
      l.(device := d, requests := l.requests[i := l.requests[i].(stage := Answered(delivery))],
         takes := l.takes + if delivery.Some? then [delivery.value.version] else [])
    case Receive(writeOk) =>
      l.(agent := Handle(l.agent, l.requests[l.agent.current.value].stage.delivery, valid, writeOk))
    case GiveUp => l.(agent := l.agent.(current := None))
    case Crash => l.(agent := l.agent.(report := None, current := None, made := []))
  }

  function Fresh(): Link {
    Link(Device(None, 0, [], None), [], Agent(None, None, None, [], []), [])
  }

  // ---------- the invariant ----------

  predicate Numbered(history: seq<HistoryRow>) {
    forall i | 0 <= i < |history| :: history[i].version == i + 1
  }

  /** A report names an existing version and carries the validator's verdict on that version's own config. */
  predicate Honest(history: seq<HistoryRow>, valid: Config -> bool, r: Option<Report>) {
    r.Some? ==> 1 <= r.value.version <= |history| && r.value.success == valid(history[r.value.version - 1].config)
  }

  predicate Filed(history: seq<HistoryRow>, r: Option<Report>) {
    r.Some? ==> 1 <= r.value.version <= |history| && history[r.value.version - 1].verdict == Some(r.value.success)
  }

  predicate Genuine(history: seq<HistoryRow>, d: Option<Delivery>) {
    d.Some? ==> 1 <= d.value.version <= |history| && history[d.value.version - 1].config == d.value.config
  }

  ghost predicate Increasing(versions: seq<nat>) {
    forall i, j | 0 <= i < j < |versions| :: versions[i] < versions[j]
  }

  ghost predicate AllBelow(versions: seq<nat>, v: nat) {
    forall i | 0 <= i < |versions| :: versions[i] < v
  }

  /** A config is pending exactly while the newest version has not been handed out, and it is that version's config. */
  ghost predicate PendingOk(d: Device, takes: seq<nat>) {
    if d.pending.Some? then
      && d.version >= 1 && |d.history| == d.version && d.history[d.version - 1].config == d.pending.value
      && AllBelow(takes, d.version)
    else
      d.version == 0 || (takes != [] && takes[|takes| - 1] == d.version)
  }

  /** What is remembered as the last result is in the history, and nothing is while no result has come. */
  predicate LastOk(d: Device) {
    if d.lastApply.Some? then Filed(d.history, d.lastApply) else forall i | 0 <= i < |d.history| :: d.history[i].verdict.None?
  }

  ghost predicate DeviceOk(d: Device, takes: seq<nat>, valid: Config -> bool) {
    && Numbered(d.history) && |d.history| == d.version && AllBelow(takes, d.version + 1) && Increasing(takes)
    && (forall i | 0 <= i < |d.history| && d.history[i].verdict.Some? :: d.history[i].verdict.value == valid(d.history[i].config))
    && PendingOk(d, takes) && LastOk(d)
  }

  /** A processed request has left its report in the history, and its answer is a config of that history. */
  ghost predicate RequestOk(history: seq<HistoryRow>, takes: seq<nat>, valid: Config -> bool, q: Request) {
    && Honest(history, valid, q.report)
    && (!q.stage.Sent? ==> Filed(history, q.report))
    && (q.stage.Answered? ==> Genuine(history, q.stage.delivery) && (q.stage.delivery.Some? ==> q.stage.delivery.value.version in takes))
  }

  /** A pending report of success means that the file holds the config of that version. */
  predicate Written(history: seq<HistoryRow>, report: Option<Report>, file: Option<Config>) {
    report.Some? && report.value.success ==>
      1 <= report.value.version <= |history| && file == Some(history[report.value.version - 1].config)
  }

  /** Every report made since the last start is still pending or has been filed. */
  ghost predicate AgentOk(history: seq<HistoryRow>, takes: seq<nat>, valid: Config -> bool, a: Agent) {
    && Honest(history, valid, a.report) && Written(history, a.report, a.file)
    && Increasing(a.handled) && (a.file.Some? ==> valid(a.file.value))
    && (forall i | 0 <= i < |a.handled| :: a.handled[i] in takes)
    && forall i | 0 <= i < |a.made| :: a.report == Some(a.made[i]) || Filed(history, Some(a.made[i]))
  }

  /** The awaited request carries the pending report, and its answer is newer than everything handled. */
  ghost predicate CurrentOk(l: Link) {
    l.agent.current.Some? ==>
      var i := l.agent.current.value;
      && i < |l.requests| && l.requests[i].report == l.agent.report
      && (l.requests[i].stage.Answered? && l.requests[i].stage.delivery.Some? ==>
            AllBelow(l.agent.handled, l.requests[i].stage.delivery.value.version))
  }

  ghost predicate RequestsOk(l: Link, valid: Config -> bool) {
    forall i | 0 <= i < |l.requests| :: RequestOk(l.device.history, l.takes, valid, l.requests[i])
  }

  ghost predicate Inv(l: Link, valid: Config -> bool) {
    && DeviceOk(l.device, l.takes, valid) && RequestsOk(l, valid)
    && AgentOk(l.device.history, l.takes, valid, l.agent) && CurrentOk(l)
  }

  // ---------- histories only grow, and verdicts stay ----------

  ghost predicate Extends(h: seq<HistoryRow>, g: seq<HistoryRow>) {
    && |h| <= |g|
    && forall i | 0 <= i < |h| :: g[i].config == h[i].config && (h[i].verdict.Some? ==> g[i].verdict == h[i].verdict)
  }

  lemma ExtendsKeeps(h: seq<HistoryRow>, g: seq<HistoryRow>, takes: seq<nat>, more: seq<nat>, valid: Config -> bool, l: Link)
    requires Extends(h, g) && h == l.device.history && RequestsOk(l, valid) && takes == l.takes
    requires AgentOk(h, takes, valid, l.agent)
    ensures forall i | 0 <= i < |l.requests| :: RequestOk(g, takes + more, valid, l.requests[i])
    ensures AgentOk(g, takes + more, valid, l.agent)
  {
    forall i | 0 <= i < |l.requests|
      ensures RequestOk(g, takes + more, valid, l.requests[i])
    {
      assert RequestOk(h, takes, valid, l.requests[i]);
    }
  }

  lemma QueueKeeps(l: Link, valid: Config -> bool, config: Config)
    requires Inv(l, valid)
    ensures Inv(Step(l, valid, Queue(config)), valid)
  {
    var d := QueueConfig(l.device, config);
    ExtendsKeeps(l.device.history, d.history, l.takes, [], valid, l);
    assert l.takes + [] == l.takes;
  }

  lemma SendKeeps(l: Link, valid: Config -> bool)
    requires Inv(l, valid) && Enabled(l, Send)
    ensures Inv(Step(l, valid, Send), valid)
  {
  }

  lemma MarkedExtends(h: seq<HistoryRow>, valid: Config -> bool, r: Report)
    requires Numbered(h) && Honest(h, valid, Some(r))
    requires forall i | 0 <= i < |h| && h[i].verdict.Some? :: h[i].verdict.value == valid(h[i].config)
    ensures var g := Marked(h, r); Extends(h, g) && Numbered(g) && |g| == |h| && Filed(g, Some(r))
    ensures forall i | 0 <= i < |h| && Marked(h, r)[i].verdict.Some? ::
              Marked(h, r)[i].verdict.value == valid(Marked(h, r)[i].config)
  {
  }

  lemma RecordKeeps(l: Link, valid: Config -> bool, i: nat)
    requires Inv(l, valid) && Enabled(l, Record(i))
    ensures Inv(Step(l, valid, Record(i)), valid)
  {
    var q, d := l.requests[i], RecordHeartbeat(l.device, l.requests[i].report);
    assert RequestOk(l.device.history, l.takes, valid, q);
    RecordExtends(l.device, l.takes, valid, q.report);
    ExtendsKeeps(l.device.history, d.history, l.takes, [], valid, l);
    assert l.takes + [] == l.takes;
    assert RequestOk(d.history, l.takes, valid, q.(stage := Recorded));
  }

  lemma RecordExtends(d: Device, takes: seq<nat>, valid: Config -> bool, report: Option<Report>)
    requires DeviceOk(d, takes, valid) && Honest(d.history, valid, report)
    ensures
      var e := RecordHeartbeat(d, report);
      DeviceOk(e, takes, valid) && Extends(d.history, e.history) && Filed(e.history, report)
  {
    if report.Some? {
      MarkedExtends(d.history, valid, report.value);
    }
  }

  lemma TakeKeeps(l: Link, valid: Config -> bool, i: nat)
    requires Inv(l, valid) && Enabled(l, Take(i))
    ensures Inv(Step(l, valid, Take(i)), valid)
  {
    var q := l.requests[i];
    assert RequestOk(l.device.history, l.takes, valid, q);
    var more := if l.device.pending.Some? then [l.device.version] else [];
    ExtendsKeeps(l.device.history, l.device.history, l.takes, more, valid, l);
    HandledBelow(l);
  }

  /** Whatever was handled was taken before. */
  lemma HandledBelow(l: Link)
    requires forall i | 0 <= i < |l.agent.handled| :: l.agent.handled[i] in l.takes
    ensures forall v: nat | AllBelow(l.takes, v) :: AllBelow(l.agent.handled, v)
  {
  }

  lemma ReceiveKeeps(l: Link, valid: Config -> bool, writeOk: bool)
    requires Inv(l, valid) && Enabled(l, Receive(writeOk))
    ensures Inv(Step(l, valid, Receive(writeOk)), valid)
  {
    var q := l.requests[l.agent.current.value];
    assert RequestOk(l.device.history, l.takes, valid, q);
    HandleKeeps(l.device.history, l.takes, valid, l.agent, q.stage.delivery, writeOk);
  }

  /** The agent drops only a report that has been filed. */
  lemma HandleKeeps(history: seq<HistoryRow>, takes: seq<nat>, valid: Config -> bool, a: Agent, delivery: Option<Delivery>, writeOk: bool)
    requires AgentOk(history, takes, valid, a) && Filed(history, a.report) && Genuine(history, delivery)
    requires delivery.Some? ==> delivery.value.version in takes && AllBelow(a.handled, delivery.value.version)
    ensures AgentOk(history, takes, valid, Handle(a, delivery, valid, writeOk)) && Handle(a, delivery, valid, writeOk).current == None
  {
  }

  lemma StepKeeps(l: Link, valid: Config -> bool, a: Action)
    requires Inv(l, valid) && Enabled(l, a)
    ensures Inv(Step(l, valid, a), valid)
  {
    match a
    case Queue(config) => QueueKeeps(l, valid, config);
    case Send => SendKeeps(l, valid);
    case Record(i) => RecordKeeps(l, valid, i);
    case Take(i) => TakeKeeps(l, valid, i);
    case Receive(writeOk) => ReceiveKeeps(l, valid, writeOk);
    case GiveUp =>
    case Crash =>
  }
}
