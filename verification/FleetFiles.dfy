/** What ends up in a device's config file, over every run of the fleet, told from the answers it received. */
module FleetFiles {
  import opened Basics
  import opened FleetProtocol
  import opened Fleet

  /** A config that reached the agent, and whether writing the file would work then. */
  datatype Receipt = Receipt(version: nat, config: Config, writeOk: bool)

  /** What one action brings to device `id`: the config in the answer it takes in, if there is one. */
  function Got(f: map<DeviceId, Member>, a: FleetAction, id: DeviceId): seq<Receipt>
    requires a.Device? ==> a.id in f && Enabled(f[a.id].link, a.action)
  {
    if a.Device? && a.id == id && a.action.Receive? then Brought(f[id].link, a.action.writeOk) else []
  }

  function Brought(l: Link, writeOk: bool): seq<Receipt>
    requires Enabled(l, Receive(writeOk))
  {
    match l.requests[l.agent.current.value].stage.delivery
    case None => []
    case Some(Delivery(config, version)) => [Receipt(version, config, writeOk)]
  }

  /** The configs that reached device `id` in a run, in order. */
  ghost function Receipts(f: map<DeviceId, Member>, valid: Config -> bool, actions: seq<FleetAction>, id: DeviceId): seq<Receipt>
    requires Possible(f, valid, actions)
    decreases |actions|
  {
    if actions == [] then [] else Got(f, actions[0], id) + Receipts(FleetStep(f, valid, actions[0]), valid, actions[1..], id)
  }

  function Versions(rs: seq<Receipt>): (vs: seq<nat>)
    ensures |vs| == |rs| && forall i | 0 <= i < |rs| :: vs[i] == rs[i].version
  {
    seq(|rs|, i requires 0 <= i < |rs| => rs[i].version)
  }

  ghost predicate LastValid(rs: seq<Receipt>, valid: Config -> bool, k: nat) {
    k < |rs| && valid(rs[k].config) && forall j | k < j < |rs| :: !valid(rs[j].config)
  }

  /** The last valid config decides: it is in the file if its write worked, else the file is unknown. */
  ghost predicate FileIs(rs: seq<Receipt>, valid: Config -> bool, start: Option<Config>, file: Option<Config>) {
    && (forall k: nat | LastValid(rs, valid, k) :: file == if rs[k].writeOk then Some(rs[k].config) else None)
    && ((forall k | 0 <= k < |rs| :: !valid(rs[k].config)) ==> file == start)
  }

  /** One answer: a valid config is written and reported, a failed write is not reported, an invalid config is only reported. */
  lemma ReceiveOutcome(l: Link, valid: Config -> bool, writeOk: bool)
    requires Enabled(l, Receive(writeOk))
    ensures
      var a, b := l.agent, Step(l, valid, Receive(writeOk)).agent;
      match l.requests[a.current.value].stage.delivery
      case None => b.file == a.file && b.report == None
      case Some(Delivery(config, version)) =>
        if !valid(config) then b.file == a.file && b.report == Some(Report(version, false))
        else if writeOk then b.file == Some(config) && b.report == Some(Report(version, true))
        else b.file == None && b.report == None
  {
  }

  /** A heartbeat that nothing disturbs: sent, recorded, answered, received. */
  function Heartbeat(l: Link, valid: Config -> bool, writeOk: bool): Link
    requires l.agent.current.None?
  {
    var n := |l.requests|;
    Step(Step(Step(Step(l, valid, Send), valid, Record(n)), valid, Take(n)), valid, Receive(writeOk))
  }

  /**
   It files the report that was waiting and brings the config that was pending, with its version: a valid one is then
   written and a report of it waiting, and nothing is pending any more.
   */
  lemma HeartbeatDelivers(l: Link, valid: Config -> bool, writeOk: bool)
    requires Inv(l, valid) && l.agent.current.None?
    ensures
      var after := Heartbeat(l, valid, writeOk);
      && after.device.pending.None? && after.agent.current.None? && after.device.version == l.device.version
      && Filed(after.device.history, l.agent.report)
      && match l.device.pending
         case None => after.agent.file == l.agent.file && after.agent.report == None && after.agent.handled == l.agent.handled
         case Some(config) =>
           && after.agent.handled == l.agent.handled + [l.device.version]
           && after.agent.file == (if !valid(config) then l.agent.file else if writeOk then Some(config) else None)
           && after.agent.report == (if !valid(config) then Some(Report(l.device.version, false))
                                     else if writeOk then Some(Report(l.device.version, true)) else None)
  {
    var n := |l.requests|;
    var sent := Step(l, valid, Send);
    SendKeeps(l, valid);
    var recorded := Step(sent, valid, Record(n));
    RecordKeeps(sent, valid, n);
    assert RequestOk(recorded.device.history, recorded.takes, valid, recorded.requests[n]);
    var taken := Step(recorded, valid, Take(n));
    ReceiveOutcome(taken, valid, writeOk);
  }

  /**
   An answer that never comes does not cost the report: it is sent again, and the next undisturbed heartbeat files it.
   (A config in that answer is lost, since a version is handed out at most once.)
   */
  lemma LostAnswerRetried(l: Link, valid: Config -> bool, writeOk: bool)
    requires Inv(l, valid) && Enabled(l, GiveUp)
    ensures
      var again := Step(l, valid, GiveUp);
      && again.device == l.device && again.agent.current.None? && again.agent.report == l.agent.report && again.agent.file == l.agent.file
      && Filed(Heartbeat(again, valid, writeOk).device.history, l.agent.report)
  {
    StepKeeps(l, valid, GiveUp);
    HeartbeatDelivers(Step(l, valid, GiveUp), valid, writeOk);
  }

  // ---------- one step ----------

  function FileOf(f: map<DeviceId, Member>, id: DeviceId): Option<Config> {
    if id in f then f[id].link.agent.file else None
  }

  function HandledOf(f: map<DeviceId, Member>, id: DeviceId): seq<nat> {
    if id in f then f[id].link.agent.handled else []
  }

  function HistoryOf(f: map<DeviceId, Member>, id: DeviceId): seq<HistoryRow> {
    if id in f then f[id].link.device.history else []
  }

  lemma ReceiveFile(l: Link, valid: Config -> bool, writeOk: bool)
    requires Enabled(l, Receive(writeOk))
    ensures
      var next := Step(l, valid, Receive(writeOk)).agent;
      FileIs(Brought(l, writeOk), valid, l.agent.file, next.file) && next.handled == l.agent.handled + Versions(Brought(l, writeOk))
  {
    var rs := Brought(l, writeOk);
    if rs != [] {
      assert Versions(rs) == [rs[0].version];
      assert LastValid(rs, valid, 0) <==> valid(rs[0].config);
    }
  }

  lemma NothingGot(valid: Config -> bool, file: Option<Config>, handled: seq<nat>)
    ensures FileIs([], valid, file, file) && handled + Versions([]) == handled
  {
  }

  lemma StepFile(f: map<DeviceId, Member>, valid: Config -> bool, a: FleetAction, id: DeviceId)
    requires FleetEnabled(f, a)
    ensures
      var g, rs := FleetStep(f, valid, a), Got(f, a, id);
      FileIs(rs, valid, FileOf(f, id), FileOf(g, id)) && HandledOf(g, id) == HandledOf(f, id) + Versions(rs)
  {
    if a.Device? && a.id == id && a.action.Receive? {
      ReceiveFile(f[id].link, valid, a.action.writeOk);
    } else {
      NothingGot(valid, FileOf(f, id), HandledOf(f, id));
    }
  }

  lemma StepExtends(l: Link, valid: Config -> bool, a: Action)
    requires Inv(l, valid) && Enabled(l, a)
    ensures Extends(l.device.history, Step(l, valid, a).device.history)
  {
    if a.Record? {
      assert RequestOk(l.device.history, l.takes, valid, l.requests[a.i]);
      RecordExtends(l.device, l.takes, valid, l.requests[a.i].report);
    }
  }

  lemma FleetStepExtends(f: map<DeviceId, Member>, valid: Config -> bool, a: FleetAction, id: DeviceId)
    requires FleetInv(f, valid) && FleetEnabled(f, a)
    ensures Extends(HistoryOf(f, id), HistoryOf(FleetStep(f, valid, a), id))
  {
    if a.Device? && a.id == id {
      StepExtends(f[id].link, valid, a.action);
    } else if a.Push? && a.id == id && id in f {
      StepExtends(f[id].link, valid, Queue(a.config));
    }
  }

  /** The receipts are rows of the history. */
  ghost predicate Rows(rs: seq<Receipt>, history: seq<HistoryRow>) {
    forall i | 0 <= i < |rs| :: 1 <= rs[i].version <= |history| && history[rs[i].version - 1].config == rs[i].config
  }

  lemma GotRows(f: map<DeviceId, Member>, valid: Config -> bool, a: FleetAction, id: DeviceId)
    requires FleetInv(f, valid) && FleetEnabled(f, a)
    ensures Rows(Got(f, a, id), HistoryOf(f, id))
  {
    if a.Device? && a.id == id && a.action.Receive? {
      var l := f[id].link;
      assert RequestOk(l.device.history, l.takes, valid, l.requests[l.agent.current.value]);
    }
  }

  lemma RowsExtend(rs: seq<Receipt>, h: seq<HistoryRow>, g: seq<HistoryRow>)
    requires Rows(rs, h) && Extends(h, g)
    ensures Rows(rs, g)
  {
  }

  // ---------- whole runs ----------

  lemma FileThen(a: seq<Receipt>, b: seq<Receipt>, valid: Config -> bool, start: Option<Config>, mid: Option<Config>, file: Option<Config>)
    requires FileIs(a, valid, start, mid) && FileIs(b, valid, mid, file)
    ensures FileIs(a + b, valid, start, file)
  {
    forall k: nat | LastValid(a + b, valid, k)
      ensures file == if (a + b)[k].writeOk then Some((a + b)[k].config) else None
    {
      if k < |a| {
        assert forall j | 0 <= j < |b| :: b[j] == (a + b)[|a| + j];
        assert forall j | 0 <= j < |a| :: a[j] == (a + b)[j];
        assert LastValid(a, valid, k);
      } else {
        assert forall j | 0 <= j < |b| :: b[j] == (a + b)[|a| + j];
        assert LastValid(b, valid, k - |a|);
      }
    }
    if forall k | 0 <= k < |a + b| :: !valid((a + b)[k].config) {
      assert forall j | 0 <= j < |a| :: a[j] == (a + b)[j];
      assert forall j | 0 <= j < |b| :: b[j] == (a + b)[|a| + j];
    }
  }

  lemma VersionsAppend(vs: seq<nat>, a: seq<Receipt>, b: seq<Receipt>)
    ensures (vs + Versions(a)) + Versions(b) == vs + Versions(a + b)
  {
  }

  lemma RowsAppend(a: seq<Receipt>, b: seq<Receipt>, h: seq<HistoryRow>)
    requires Rows(a, h) && Rows(b, h)
    ensures Rows(a + b, h)
  {
  }

  lemma {:induction false} RunFile(f: map<DeviceId, Member>, valid: Config -> bool, actions: seq<FleetAction>, id: DeviceId)
    requires FleetInv(f, valid) && Possible(f, valid, actions)
    ensures
      var g, rs := After(f, valid, actions), Receipts(f, valid, actions, id);
      && FileIs(rs, valid, FileOf(f, id), FileOf(g, id)) && HandledOf(g, id) == HandledOf(f, id) + Versions(rs)
      && Extends(HistoryOf(f, id), HistoryOf(g, id)) && Rows(rs, HistoryOf(g, id))
    decreases |actions|
  {
    if actions == [] {
      NothingGot(valid, FileOf(f, id), HandledOf(f, id));
    } else {
      var a, rest := actions[0], actions[1..];
      var g := FleetStep(f, valid, a);
      FleetStepKeeps(f, valid, a);
      RunFile(g, valid, rest, id);
      var end, first, later := After(g, valid, rest), Got(f, a, id), Receipts(g, valid, rest, id);
      assert After(f, valid, actions) == end && Receipts(f, valid, actions, id) == first + later;
      StepFile(f, valid, a, id);
      FileThen(first, later, valid, FileOf(f, id), FileOf(g, id), FileOf(end, id));
      VersionsAppend(HandledOf(f, id), first, later);
      StepRows(f, valid, a, id, HistoryOf(end, id));
      RowsAppend(first, later, HistoryOf(end, id));
    }
  }

  lemma StepRows(f: map<DeviceId, Member>, valid: Config -> bool, a: FleetAction, id: DeviceId, later: seq<HistoryRow>)
    requires FleetInv(f, valid) && FleetEnabled(f, a) && Extends(HistoryOf(FleetStep(f, valid, a), id), later)
    ensures Extends(HistoryOf(f, id), later) && Rows(Got(f, a, id), later)
  {
    FleetStepExtends(f, valid, a, id);
    GotRows(f, valid, a, id);
    RowsExtend(Got(f, a, id), HistoryOf(f, id), HistoryOf(FleetStep(f, valid, a), id));
    RowsExtend(Got(f, a, id), HistoryOf(FleetStep(f, valid, a), id), later);
  }

  /**
   In every run, for every device: the versions handled are those of the configs it received, which are rows of its
   history. The config file is the one of the largest handled version whose config is valid, provided that its write
   worked, and unknown if not; rejected configs leave it alone, and with no valid one it is as it was at the start.
   While a success is waiting to be reported, the file holds the config of exactly that version.
   */
  lemma FileFollows(valid: Config -> bool, actions: seq<FleetAction>, id: DeviceId)
    requires Possible(map[], valid, actions) && id in After(map[], valid, actions)
    ensures
      var l, rs := After(map[], valid, actions)[id].link, Receipts(map[], valid, actions, id);
      && l.agent.handled == Versions(rs) && (forall i, j | 0 <= i < j < |rs| :: rs[i].version < rs[j].version)
      && Rows(rs, l.device.history) && FileIs(rs, valid, None, l.agent.file)
      && Written(l.device.history, l.agent.report, l.agent.file)
  {
    RunFile(map[], valid, actions, id);
    AgentAfter(valid, actions, id);
    NoneFirst(Versions(Receipts(map[], valid, actions, id)));
    InOrder(Receipts(map[], valid, actions, id));
  }

  lemma AgentAfter(valid: Config -> bool, actions: seq<FleetAction>, id: DeviceId)
    requires Possible(map[], valid, actions) && id in After(map[], valid, actions)
    ensures
      var l := After(map[], valid, actions)[id].link;
      Increasing(l.agent.handled) && Written(l.device.history, l.agent.report, l.agent.file)
  {
    RunKeeps(map[], valid, actions);
    assert Inv(After(map[], valid, actions)[id].link, valid);
  }

  lemma NoneFirst(vs: seq<nat>)
    ensures [] + vs == vs
  {
  }

  lemma InOrder(rs: seq<Receipt>)
    ensures Increasing(Versions(rs)) ==> forall i, j | 0 <= i < j < |rs| :: rs[i].version < rs[j].version
  {
    var vs := Versions(rs);
    if Increasing(vs) {
      forall i, j | 0 <= i < j < |rs|
        ensures rs[i].version < rs[j].version
      {
        assert vs[i] < vs[j];
      }
    }
  }

  // ---------- reports ----------

  /** What the agent reports of a config it received. */
  function Reported(r: Receipt, valid: Config -> bool): seq<Report> {
    if !valid(r.config) then [Report(r.version, false)] else if r.writeOk then [Report(r.version, true)] else []
  }

  function ReportedAll(rs: seq<Receipt>, valid: Config -> bool): seq<Report> {
    if rs == [] then [] else Reported(rs[0], valid) + ReportedAll(rs[1..], valid)
  }

  predicate Crashes(a: FleetAction, id: DeviceId) {
    a == FleetAction.Device(id, Crash)
  }

  /** The reports due since device `id` last started, given those due at the beginning of the run. */
  ghost function DueSince(f: map<DeviceId, Member>, valid: Config -> bool, actions: seq<FleetAction>, id: DeviceId, due: seq<Report>): seq<Report>
    requires Possible(f, valid, actions)
    decreases |actions|
  {
    if actions == [] then due
    else
      DueSince(FleetStep(f, valid, actions[0]), valid, actions[1..], id,
               if Crashes(actions[0], id) then [] else due + ReportedAll(Got(f, actions[0], id), valid))
  }

  function MadeOf(f: map<DeviceId, Member>, id: DeviceId): seq<Report> {
    if id in f then f[id].link.agent.made else []
  }

  lemma BroughtReported(l: Link, valid: Config -> bool, writeOk: bool)
    requires Enabled(l, Receive(writeOk))
    ensures Step(l, valid, Receive(writeOk)).agent.made == l.agent.made + ReportedAll(Brought(l, writeOk), valid)
  {
    var rs := Brought(l, writeOk);
    if rs != [] {
      assert rs[1..] == [] && Reported(rs[0], valid) + [] == Reported(rs[0], valid);
    }
  }

  lemma StepMade(f: map<DeviceId, Member>, valid: Config -> bool, a: FleetAction, id: DeviceId)
    requires FleetEnabled(f, a)
    ensures MadeOf(FleetStep(f, valid, a), id) == if Crashes(a, id) then [] else MadeOf(f, id) + ReportedAll(Got(f, a, id), valid)
  {
    if a.Device? && a.id == id && a.action.Receive? {
      BroughtReported(f[id].link, valid, a.action.writeOk);
    } else {
      assert MadeOf(f, id) + [] == MadeOf(f, id);
    }
  }

  /** In every run, the reports made since the last start are those due for the configs received since then. */
  lemma {:induction false} MadeIsDue(f: map<DeviceId, Member>, valid: Config -> bool, actions: seq<FleetAction>, id: DeviceId)
    requires Possible(f, valid, actions)
    ensures MadeOf(After(f, valid, actions), id) == DueSince(f, valid, actions, id, MadeOf(f, id))
    decreases |actions|
  {
    if actions != [] {
      var g := FleetStep(f, valid, actions[0]);
      StepMade(f, valid, actions[0], id);
      MadeIsDue(g, valid, actions[1..], id);
      assert After(f, valid, actions) == After(g, valid, actions[1..]);
    }
  }

  // ---------- where configs come from ----------

  function Configs(history: seq<HistoryRow>): (cs: seq<Config>)
    ensures |cs| == |history| && forall i | 0 <= i < |cs| :: cs[i] == history[i].config
  {
    seq(|history|, i requires 0 <= i < |history| => history[i].config)
  }

  /** The config that an operator of the device's own tenant pushes to a registered device. */
  function Pushed(f: map<DeviceId, Member>, a: FleetAction, id: DeviceId): seq<Config> {
    if a.Push? && a.id == id && id in f && a.tenant == f[id].tenant then [a.config] else []
  }

  ghost function PushedIn(f: map<DeviceId, Member>, valid: Config -> bool, actions: seq<FleetAction>, id: DeviceId): seq<Config>
    requires Possible(f, valid, actions)
    decreases |actions|
  {
    if actions == [] then [] else Pushed(f, actions[0], id) + PushedIn(FleetStep(f, valid, actions[0]), valid, actions[1..], id)
  }

  lemma StepConfigs(f: map<DeviceId, Member>, valid: Config -> bool, a: FleetAction, id: DeviceId)
    requires FleetEnabled(f, a)
    ensures Configs(HistoryOf(FleetStep(f, valid, a), id)) == Configs(HistoryOf(f, id)) + Pushed(f, a, id)
  {
    var before, after := Configs(HistoryOf(f, id)), Configs(HistoryOf(FleetStep(f, valid, a), id));
    if Pushed(f, a, id) == [] {
      assert after == before && before + [] == before;
    } else {
      assert after == before + [a.config];
    }
  }

  lemma ConfigsAppend(a: seq<Config>, b: seq<Config>, c: seq<Config>)
    ensures (a + b) + c == a + (b + c)
  {
  }

  /** In every run, a device's history is exactly what operators of its own tenant pushed to it, in order. */
  lemma {:induction false} HistoryIsPushed(f: map<DeviceId, Member>, valid: Config -> bool, actions: seq<FleetAction>, id: DeviceId)
    requires Possible(f, valid, actions)
    ensures Configs(HistoryOf(After(f, valid, actions), id)) == Configs(HistoryOf(f, id)) + PushedIn(f, valid, actions, id)
    decreases |actions|
  {
    if actions == [] {
      assert Configs(HistoryOf(f, id)) + [] == Configs(HistoryOf(f, id));
    } else {
      var g := FleetStep(f, valid, actions[0]);
      StepConfigs(f, valid, actions[0], id);
      HistoryIsPushed(g, valid, actions[1..], id);
      assert After(f, valid, actions) == After(g, valid, actions[1..]);
      ConfigsAppend(Configs(HistoryOf(f, id)), Pushed(f, actions[0], id), PushedIn(g, valid, actions[1..], id));
    }
  }
}
