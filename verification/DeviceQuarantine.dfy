/** Device health: what discovery makes of a device, how failures put it into quarantine, and how
    probes let it out again. */
module DeviceQuarantine {
  import opened Wrappers
  import opened GroupBy

  datatype Connection = Unknown | Online | Offline | Unauthorized

  datatype Availability = Idle | Reserved | Running | Erroneous | Quarantined

  /** One device. Its serial is its id. Times are in seconds. */
  datatype Record = Record(
    connection: Connection,
    availability: Availability,
    instance: Option<string>,
    failureStreak: nat,
    lastProbeAt: Option<int>)

  /** The device registry, by serial. */
  type Registry = map<string, Record>

  // ---------------------------------------------------------------------------------
  // Discovery.
  // ---------------------------------------------------------------------------------

  datatype Descriptor = Descriptor(serial: string, status: string)

  function MapConnection(status: string): Connection {
    match status
    case "device" => Online
    case "offline" => Offline
    case "unauthorized" => Unauthorized
    case _ => Unknown
  }

  function DeriveAvailability(current: Option<Availability>, connection: Connection,
      instance: Option<string>): Availability {
    if current == Some(Quarantined) then Quarantined
    else if connection != Online then Erroneous
    else if current == Some(Reserved) || current == Some(Running) then current.value
    else if instance.Some? && instance.value != "" then Reserved
    else Idle
  }

  function Build(status: string): Record {
    Record(MapConnection(status), DeriveAvailability(None, MapConnection(status), None), None, 0, None)
  }

  function Merge(d: Record, status: string): Record {
    var connection := MapConnection(status);
    d.(connection := connection, availability := DeriveAvailability(Some(d.availability), connection, d.instance))
  }

  function MarkMissing(d: Record): Record {
    if d.connection == Offline && (d.availability == Erroneous || d.availability == Quarantined) then d
    else d.(connection := Offline, availability := if d.availability != Quarantined then Erroneous else Quarantined)
  }

  /** The registry after the first n descriptors; `known` are the serials registered before. */
  function SyncFound(devices: Registry, known: set<string>, ds: seq<Descriptor>, n: nat): Registry
    requires n <= |ds| && known <= devices.Keys
    ensures known <= SyncFound(devices, known, ds, n).Keys
  {
    if n == 0 then devices
    else
      var before, d := SyncFound(devices, known, ds, n - 1), ds[n - 1];
      before[d.serial := if d.serial in known then Merge(before[d.serial], d.status) else Build(d.status)]
  }

  function Serials(ds: seq<Descriptor>): set<string> { set d | d in ds :: d.serial }

  function MarkAll(devices: Registry, missing: set<string>): Registry {
    map k | k in devices.Keys :: if k in missing then MarkMissing(devices[k]) else devices[k]
  }

  function Sync(devices: Registry, ds: seq<Descriptor>, markMissing: bool): Registry {
    var found := SyncFound(devices, devices.Keys, ds, |ds|);
    if markMissing then MarkAll(found, devices.Keys - Serials(ds)) else found
  }

  function SyncOne(devices: Registry, serial: string, found: Option<string>): Registry {
    if found.None? then devices
    else devices[serial := if serial in devices then Merge(devices[serial], found.value) else Build(found.value)]
  }

  // ---------------------------------------------------------------------------------
  // Health.
  // ---------------------------------------------------------------------------------

  predicate Reaches(streak: int, threshold: Option<int>) {
    threshold.Some? && threshold.value > 0 && streak >= threshold.value
  }

  function Failed(d: Record, threshold: Option<int>): Record {
    var streak := d.failureStreak + 1;
    if Reaches(streak, threshold) then d.(failureStreak := streak, instance := None, availability := Quarantined)
    else d.(failureStreak := streak)
  }

  function Settled(connection: Connection): Availability { if connection == Online then Idle else Erroneous }

  function Succeeded(d: Record): Record {
    var keeps := d.availability == Reserved || d.availability == Running || d.availability == Quarantined;
    d.(failureStreak := 0, availability := if keeps then d.availability else Settled(d.connection))
  }

  function Cleared(d: Record): Record {
    d.(failureStreak := 0, instance := None, availability := Settled(d.connection))
  }

  // ---------------------------------------------------------------------------------
  // Probes.
  // ---------------------------------------------------------------------------------

  datatype ProbeResult =
    | NotQuarantined
    | Cooldown(next: int)
    | DeviceNotFound(next: int)
    | Recovered(next: int)
    | Still(connection: Connection, next: int)

  predicate IsAttempt(r: ProbeResult) { r.DeviceNotFound? || r.Recovered? || r.Still? }

  /** The wait between probes in seconds, from an interval in minutes. */
  function ProbeWait(minutes: int): int {
    var m := if minutes == 0 then 15 else minutes;
    60 * (if m < 1 then 1 else m)
  }

  /** What a probe at a given time reports; `found` is what discovery says of the device. */
  function ProbeOf(d: Record, minutes: int, at: int, found: Option<string>): ProbeResult {
    var next := at + ProbeWait(minutes);
    if d.availability != Quarantined then NotQuarantined
    else if d.lastProbeAt.Some? && d.lastProbeAt.value + ProbeWait(minutes) > at
      then Cooldown(d.lastProbeAt.value + ProbeWait(minutes))
    else if found.None? then DeviceNotFound(next)
    else if MapConnection(found.value) == Online then Recovered(next)
    else Still(MapConnection(found.value), next)
  }

  /** What it does to the device. */
  function Probed(d: Record, minutes: int, at: int, found: Option<string>): Record {
    match ProbeOf(d, minutes, at, found)
    case NotQuarantined => d
    case Cooldown(_) => d
    case DeviceNotFound(_) => d.(lastProbeAt := Some(at))
    case Recovered(_) => Cleared(Merge(d, found.value)).(lastProbeAt := Some(at))
    case Still(_, _) => Merge(d, found.value).(lastProbeAt := Some(at))
  }

  // ---------------------------------------------------------------------------------
  // Runs.
  // ---------------------------------------------------------------------------------

  /** What can happen to one registered device: health reports, probes, and a schedule taking,
      running and freeing it. */
  datatype Operation =
    | Failure(threshold: Option<int>)
    | Success
    | Clear
    | Probe(minutes: int, at: int, found: Option<string>)
    | Reserve(instanceId: string)
    | Start(instanceOrNone: Option<string>)
    | Free

  function Changed(d: Record, op: Operation): Record {
    match op
    case Failure(threshold) => Failed(d, threshold)
    case Success => Succeeded(d)
    case Clear => Cleared(d)
    case Probe(minutes, at, found) => Probed(d, minutes, at, found)
    case Reserve(id) => d.(instance := Some(id), availability := Reserved)
    case Start(id) => d.(instance := if id.Some? && id.value != "" then id else d.instance, availability := Running)
    case Free => d.(instance := None, availability := Idle)
  }

  datatype Command =
    | SyncDevices(descriptors: seq<Descriptor>, markMissing: bool)
    | SyncDevice(serial: string, found: Option<string>)
    | On(serial: string, op: Operation)

  /** An operation on an unknown device is refused. */
  function Step(devices: Registry, cmd: Command): Registry {
    match cmd
    case SyncDevices(ds, markMissing) => Sync(devices, ds, markMissing)
    case SyncDevice(serial, found) => SyncOne(devices, serial, found)
    case On(serial, op) => if serial in devices then devices[serial := Changed(devices[serial], op)] else devices
  }

  function Run(cmds: seq<Command>): Registry {
    if cmds == [] then map[] else Step(Run(Init(cmds)), Last(cmds))
  }

  // ---------------------------------------------------------------------------------
  // Discovery leaves health alone.
  // ---------------------------------------------------------------------------------

  predicate SameHealth(d: Record, d': Record) {
    && d'.failureStreak == d.failureStreak && d'.lastProbeAt == d.lastProbeAt && d'.instance == d.instance
    && (d'.availability == Quarantined <==> d.availability == Quarantined)
  }

  predicate IsNew(d: Record) { d.failureStreak == 0 && d.lastProbeAt == None && d.availability != Quarantined }

  lemma {:induction false} SyncFoundKeepsHealth(devices: Registry, ds: seq<Descriptor>, n: nat, k: string)
    requires n <= |ds|
    ensures var found := SyncFound(devices, devices.Keys, ds, n);
      && (k in devices ==> SameHealth(devices[k], found[k]))
      && (k !in devices && k in found ==> IsNew(found[k]))
      && (k in found <==> k in devices || k in Serials(ds[..n]))
  {
    if n > 0 {
      SyncFoundKeepsHealth(devices, ds, n - 1, k);
      assert ds[..n] == ds[..n - 1] + [ds[n - 1]];
      assert Serials(ds[..n]) == Serials(ds[..n - 1]) + {ds[n - 1].serial};
    }
  }

  lemma SyncKeepsHealth(devices: Registry, ds: seq<Descriptor>, markMissing: bool, k: string)
    ensures var synced := Sync(devices, ds, markMissing);
      && (k in devices ==> k in synced && SameHealth(devices[k], synced[k]))
      && (k !in devices && k in synced ==> IsNew(synced[k]))
      && (k in synced <==> k in devices || k in Serials(ds))
  {
    SyncFoundKeepsHealth(devices, ds, |ds|, k);
    assert ds[..|ds|] == ds;
  }

  /** The last descriptor of a serial. */
  function LastStatus(ds: seq<Descriptor>, serial: string): Option<string> {
    if ds == [] then None
    else if Last(ds).serial == serial then Some(Last(ds).status)
    else LastStatus(Init(ds), serial)
  }

  lemma {:induction false} SyncFoundReflectsDescriptors(devices: Registry, ds: seq<Descriptor>, n: nat, k: string)
    requires n <= |ds|
    ensures var found := SyncFound(devices, devices.Keys, ds, n);
      match LastStatus(ds[..n], k)
      case None => k in found ==> k in devices && found[k] == devices[k]
      case Some(status) =>
        k in found && found[k].connection == MapConnection(status)
        && (found[k].availability == Idle || found[k].availability == Reserved || found[k].availability == Running ==>
            found[k].connection == Online)
  {
    if n > 0 {
      SyncFoundReflectsDescriptors(devices, ds, n - 1, k);
      assert Init(ds[..n]) == ds[..n - 1] && Last(ds[..n]) == ds[n - 1];
    }
  }

  lemma {:induction false} LastStatusOfSerials(ds: seq<Descriptor>, k: string)
    ensures LastStatus(ds, k).Some? <==> k in Serials(ds)
  {
    if ds != [] {
      LastStatusOfSerials(Init(ds), k);
      assert ds == Init(ds) + [Last(ds)];
      if k in Serials(ds) {
        var d :| d in ds && d.serial == k;
        assert d in Init(ds) || d == Last(ds);
      }
      if LastStatus(ds, k).Some? && Last(ds).serial != k {
        var d :| d in Init(ds) && d.serial == k;
        assert d in ds;
      }
    }
  }

  /** After a sync every discovered device shows the connection last reported for it, and is only
      usable if that is online; a registered device that was not discovered is offline and out of
      use when missing devices are marked, and untouched otherwise. */
  lemma SyncReflectsDiscovery(devices: Registry, ds: seq<Descriptor>, markMissing: bool, k: string)
    requires k in Sync(devices, ds, markMissing)
    ensures var d := Sync(devices, ds, markMissing)[k];
      match LastStatus(ds, k)
      case Some(status) => d.connection == MapConnection(status) && (IsUsable(d) ==> d.connection == Online)
      case None => k in devices && if markMissing then d.connection == Offline && !IsUsable(d) else d == devices[k]
  {
    SyncFoundReflectsDescriptors(devices, ds, |ds|, k);
    LastStatusOfSerials(ds, k);
    assert ds[..|ds|] == ds;
  }

  predicate IsUsable(d: Record) { d.availability == Idle || d.availability == Reserved || d.availability == Running }

  // ---------------------------------------------------------------------------------
  // The failure streak.
  // ---------------------------------------------------------------------------------

  /** The command ends a streak of failures: a success, a clear, or a probe that recovers. */
  predicate EndsStreak(devices: Registry, cmd: Command, k: string) {
    && cmd.On? && cmd.serial == k && k in devices
    && (cmd.op.Success? || cmd.op.Clear?
        || (cmd.op.Probe? && ProbeOf(devices[k], cmd.op.minutes, cmd.op.at, cmd.op.found).Recovered?))
  }

  /** The failures of a device since its last success, clear or recovery. */
  function FailuresSince(cmds: seq<Command>, k: string): nat {
    if cmds == [] then 0
    else
      var before, cmd := Run(Init(cmds)), Last(cmds);
      if EndsStreak(before, cmd, k) then 0
      else if cmd.On? && cmd.serial == k && k in before && cmd.op.Failure? then FailuresSince(Init(cmds), k) + 1
      else FailuresSince(Init(cmds), k)
  }

  /** In every run, a device's failure streak is the number of its failures since its last
      success, clear or recovery. */
  lemma {:induction false} StreakCountsFailures(cmds: seq<Command>, k: string)
    ensures k in Run(cmds) ==> Run(cmds)[k].failureStreak == FailuresSince(cmds, k)
    ensures k !in Run(cmds) ==> FailuresSince(cmds, k) == 0
  {
    if cmds != [] {
      var before, cmd := Run(Init(cmds)), Last(cmds);
      StreakCountsFailures(Init(cmds), k);
      if cmd.SyncDevices? {
        SyncKeepsHealth(before, cmd.descriptors, cmd.markMissing, k);
      }
    }
  }

  // ---------------------------------------------------------------------------------
  // Into quarantine and out again.
  // ---------------------------------------------------------------------------------

  predicate InQuarantine(devices: Registry, k: string) { k in devices && devices[k].availability == Quarantined }

  /** After any run, a command puts a device into quarantine exactly when it reports a failure of
      that device and the failures since the last success, clear or recovery, this one included,
      reach a positive threshold. */
  lemma EntersQuarantineExactlyWhen(cmds: seq<Command>, cmd: Command, k: string)
    requires k in Run(cmds) && !InQuarantine(Run(cmds), k)
    ensures InQuarantine(Step(Run(cmds), cmd), k)
       <==> cmd.On? && cmd.serial == k && cmd.op.Failure? && Reaches(FailuresSince(cmds, k) + 1, cmd.op.threshold)
  {
    StreakCountsFailures(cmds, k);
    if cmd.SyncDevices? {
      SyncKeepsHealth(Run(cmds), cmd.descriptors, cmd.markMissing, k);
    }
  }

  /** A command lets a device out of quarantine exactly when it clears it, is a probe off cooldown
      that finds it online, or has a schedule take, run or free it; discovery, failures, successes
      and marking missing devices never do. */
  lemma LeavesQuarantineExactlyWhen(devices: Registry, cmd: Command, k: string)
    requires InQuarantine(devices, k)
    ensures var d := devices[k];
      k in Step(devices, cmd)
      && (!InQuarantine(Step(devices, cmd), k)
          <==> cmd.On? && cmd.serial == k &&
               match cmd.op
               case Clear => true
               case Probe(minutes, at, found) =>
                 && (d.lastProbeAt.Some? ==> at - d.lastProbeAt.value >= ProbeWait(minutes))
                 && found.Some? && MapConnection(found.value) == Online
               case Reserve(_) => true
               case Start(_) => true
               case Free => true
               case Failure(_) => false
               case Success => false)
  {
    if cmd.SyncDevices? {
      SyncKeepsHealth(devices, cmd.descriptors, cmd.markMissing, k);
    }
  }

  /** A device let out by a clear or a recovery is idle if it is online and erroneous otherwise,
      and its streak starts anew. */
  lemma LeavesQuarantineClean(d: Record, op: Operation)
    requires d.availability == Quarantined
    requires op.Clear? || (op.Probe? && ProbeOf(d, op.minutes, op.at, op.found).Recovered?)
    ensures var d' := Changed(d, op);
      d'.failureStreak == 0 && d'.instance == None && d'.availability == Settled(d'.connection)
          && (op.Probe? ==> d'.availability == Idle)
  {
  }

  // ---------------------------------------------------------------------------------
  // The spacing of probes.
  // ---------------------------------------------------------------------------------

  predicate AttemptsProbe(devices: Registry, cmd: Command, k: string) {
    && cmd.On? && cmd.serial == k && k in devices && cmd.op.Probe?
    && IsAttempt(ProbeOf(devices[k], cmd.op.minutes, cmd.op.at, cmd.op.found))
  }

  /** The i-th command of a run attempts a probe of the device. */
  predicate Attempts(cmds: seq<Command>, i: nat, k: string)
    requires i < |cmds|
  {
    AttemptsProbe(Run(cmds[..i]), cmds[i], k)
  }

  lemma StepRemembersAttempt(devices: Registry, cmd: Command, k: string)
    ensures k in devices ==> k in Step(devices, cmd)
    ensures k in Step(devices, cmd) ==>
      Step(devices, cmd)[k].lastProbeAt ==
        if AttemptsProbe(devices, cmd, k) then Some(cmd.op.at)
        else if k in devices then devices[k].lastProbeAt
        else None
  {
    if cmd.SyncDevices? {
      SyncKeepsHealth(devices, cmd.descriptors, cmd.markMissing, k);
    }
  }

  /** The latest attempt within the first n commands. */
  function LatestAttempt(cmds: seq<Command>, n: nat, k: string): (at: Option<int>)
    requires n <= |cmds|
  {
    if n == 0 then None
    else if Attempts(cmds, n - 1, k) then Some(cmds[n - 1].op.at)
    else LatestAttempt(cmds, n - 1, k)
  }

  lemma RunOneMore(cmds: seq<Command>, n: nat)
    requires n < |cmds|
    ensures Run(cmds[..n + 1]) == Step(Run(cmds[..n]), cmds[n])
  {
    assert Init(cmds[..n + 1]) == cmds[..n] && Last(cmds[..n + 1]) == cmds[n];
  }

  /** The registry remembers the latest attempt. */
  lemma {:induction false} RegistryHoldsLatestAttempt(cmds: seq<Command>, n: nat, k: string)
    requires n <= |cmds|
    ensures k in Run(cmds[..n]) ==> Run(cmds[..n])[k].lastProbeAt == LatestAttempt(cmds, n, k)
    ensures k !in Run(cmds[..n]) ==> LatestAttempt(cmds, n, k) == None
  {
    if n > 0 {
      RegistryHoldsLatestAttempt(cmds, n - 1, k);
      RunOneMore(cmds, n - 1);
      StepRemembersAttempt(Run(cmds[..n - 1]), cmds[n - 1], k);
    }
  }

  /** Any two attempts to probe a device are at least the later one's interval apart, whether or
      not the times given to other commands ever go back. */
  lemma AttemptsAreSpaced(cmds: seq<Command>, i: nat, j: nat, k: string)
    requires i < j < |cmds| && Attempts(cmds, i, k) && Attempts(cmds, j, k)
    ensures cmds[j].op.at - cmds[i].op.at >= ProbeWait(cmds[j].op.minutes)
  {
    LatestIsNoEarlier(cmds, i, j, k);
    RegistryHoldsLatestAttempt(cmds, j, k);
  }

  /** In seconds: at least a minute apart in any case, a quarter of an hour where the later probe
      names no interval, and its minutes times sixty where it does. */
  lemma AttemptsAreSpacedInSeconds(cmds: seq<Command>, i: nat, j: nat, k: string)
    requires i < j < |cmds| && Attempts(cmds, i, k) && Attempts(cmds, j, k)
    ensures var apart, minutes := cmds[j].op.at - cmds[i].op.at, cmds[j].op.minutes;
      && apart >= 60
      && (minutes == 0 ==> apart >= 900)
      && (minutes > 0 ==> apart >= 60 * minutes)
  {
    AttemptsAreSpaced(cmds, i, j, k);
  }

  lemma {:induction false} LatestIsNoEarlier(cmds: seq<Command>, i: nat, n: nat, k: string)
    requires i < n <= |cmds| && Attempts(cmds, i, k)
    ensures LatestAttempt(cmds, n, k).Some? && LatestAttempt(cmds, n, k).value >= cmds[i].op.at
  {
    if i < n - 1 {
      LatestIsNoEarlier(cmds, i, n - 1, k);
      if Attempts(cmds, n - 1, k) {
        RegistryHoldsLatestAttempt(cmds, n - 1, k);
      }
    }
  }

  /** The words of the discovery adapter. */
  predicate Reports(status: string, connection: Connection) {
    match connection
    case Online => status == "device"
    case Offline => status == "offline"
    case Unauthorized => status == "unauthorized"
    case Unknown => status != "device" && status != "offline" && status != "unauthorized"
  }

  /** What a probe of a quarantined device does, in seconds and in the words of the adapter: within
      the interval since the last attempt nothing; else the attempt is recorded, and a device that
      is found shows the connection reported for it. Found online it is let out, idle and with a
      new streak; otherwise it stays in quarantine with its streak. */
  lemma ProbeDoes(d: Record, minutes: int, at: int, found: Option<string>)
    requires d.availability == Quarantined
    ensures var wait := if minutes == 0 then 900 else if minutes < 1 then 60 else 60 * minutes;
      var d', r := Changed(d, Probe(minutes, at, found)), ProbeOf(d, minutes, at, found);
      if d.lastProbeAt.Some? && at < d.lastProbeAt.value + wait
      then r == Cooldown(d.lastProbeAt.value + wait) && d' == d
      else
        && d'.lastProbeAt == Some(at)
        && match found
           case None => r == DeviceNotFound(at + wait) && d' == d.(lastProbeAt := Some(at))
           case Some(status) =>
             && Reports(status, d'.connection)
             && if d'.connection == Online
                then r == Recovered(at + wait) && d' == Record(Online, Idle, None, 0, Some(at))
                else r == Still(d'.connection, at + wait)
                     && d' == d.(connection := d'.connection, lastProbeAt := Some(at))
  {
  }

  /** A device that is not in quarantine is not probed. */
  lemma OnlyQuarantinedAreProbed(d: Record, minutes: int, at: int, found: Option<string>)
    requires d.availability != Quarantined
    ensures ProbeOf(d, minutes, at, found) == NotQuarantined && Changed(d, Probe(minutes, at, found)) == d
  {
  }

  /** What health reports and schedules do to a device. A failure adds to the streak, and at a
      positive threshold takes the device out of its instance into quarantine. A success ends the
      streak, and makes a device that no schedule holds idle or erroneous, by its connection. */
  lemma ReportsDo(d: Record, op: Operation)
    ensures var d', settled := Changed(d, op), if d.connection == Online then Idle else Erroneous;
      match op
      case Failure(threshold) =>
        if threshold.Some? && 0 < threshold.value <= d.failureStreak + 1
        then d' == Record(d.connection, Quarantined, None, d.failureStreak + 1, d.lastProbeAt)
        else d' == d.(failureStreak := d.failureStreak + 1)
      case Success =>
        var isFree := d.availability == Idle || d.availability == Erroneous;
        d' == d.(failureStreak := 0, availability := if isFree then settled else d.availability)
      case Clear => d' == Record(d.connection, settled, None, 0, d.lastProbeAt)
      case Probe(_, _, _) => true
      case Reserve(id) => d' == d.(instance := Some(id), availability := Reserved)
      case Start(id) =>
        d' == d.(instance := if id == None || id == Some("") then d.instance else id, availability := Running)
      case Free => d' == d.(instance := None, availability := Idle)
  {
  }

  /** What a sync makes of one device, in the words of the adapter: a discovered one shows the
      connection last reported; quarantine and, while online, a running or reserved state stay; an
      idle device that has an instance counts as reserved; whatever is not online is erroneous. */
  lemma SyncDoes(devices: Registry, ds: seq<Descriptor>, markMissing: bool, k: string)
    requires k in devices
    ensures k in Sync(devices, ds, markMissing)
    ensures var d, d' := devices[k], Sync(devices, ds, markMissing)[k];
      && d' == d.(connection := d'.connection, availability := d'.availability)
      && match LastStatus(ds, k)
         case None =>
           if markMissing
           then d'.connection == Offline
               && d'.availability == if d.availability == Quarantined then Quarantined else Erroneous
           else d' == d
         case Some(status) => Reports(status, d'.connection) && KeepsItsUse(d, d')
  {
    SyncFoundMerges(devices, ds, |ds|, k);
    LastStatusOfSerials(ds, k);
    assert ds[..|ds|] == ds;
  }

  predicate KeepsItsUse(d: Record, d': Record) {
    if d.availability == Quarantined then d'.availability == Quarantined
    else if d'.connection != Online then d'.availability == Erroneous
    else IsUsable(d')
  }

  lemma {:induction false} SyncFoundMerges(devices: Registry, ds: seq<Descriptor>, n: nat, k: string)
    requires n <= |ds| && k in devices
    ensures var d, d' := devices[k], SyncFound(devices, devices.Keys, ds, n)[k];
      && d' == d.(connection := d'.connection, availability := d'.availability)
      && match LastStatus(ds[..n], k)
         case None => d' == d
         case Some(status) => Reports(status, d'.connection) && KeepsItsUse(d, d')
  {
    if n > 0 {
      SyncFoundMerges(devices, ds, n - 1, k);
      assert Init(ds[..n]) == ds[..n - 1] && Last(ds[..n]) == ds[n - 1];
    }
  }

  /** A descriptor of its own: a registered device that is online keeps being reserved or running;
      with an instance it is reserved, and otherwise idle. A new one is idle if it is online. */
  lemma DiscoveryDoes(d: Record, status: string)
    ensures var d', fresh' := Merge(d, status), Build(status);
      && Reports(status, d'.connection) && Reports(status, fresh'.connection)
      && d' == d.(connection := d'.connection, availability := d'.availability)
      && (d'.availability == Quarantined <==> d.availability == Quarantined)
      && (d.availability != Quarantined && status != "device" ==> d'.availability == Erroneous)
      && (d.availability != Quarantined && status == "device" ==>
            d'.availability ==
              if d.availability == Reserved || d.availability == Running then d.availability
              else if d.instance != None && d.instance != Some("") then Reserved
              else Idle)
      && fresh' == Record(fresh'.connection, if status == "device" then Idle else Erroneous, None, 0, None)
  {
  }

  // ---------------------------------------------------------------------------------
  // Devices and their registry, changed in place.
  // ---------------------------------------------------------------------------------

  class Device {
    var connection: Connection
    var availability: Availability
    var instance: Option<string>
    var failureStreak: nat
    var lastProbeAt: Option<int>

    function View(): Record
      reads this
    {
      Record(connection, availability, instance, failureStreak, lastProbeAt)
    }

    constructor (status: string)
      ensures View() == Build(status)
    {
      connection := MapConnection(status);
      availability := DeriveAvailability(None, MapConnection(status), None);
      instance, failureStreak, lastProbeAt := None, 0, None;
    }

    method MergeDescriptor(status: string)
      modifies this
      ensures View() == Merge(old(View()), status)
    {
      connection := MapConnection(status);
      availability := DeriveAvailability(Some(availability), connection, instance);
    }

    method MarkMissingOffline() returns (changed: bool)
      modifies this
      ensures View() == MarkMissing(old(View())) && (changed <==> View() != old(View()))
    {
      if connection == Offline && (availability == Erroneous || availability == Quarantined) {
        return false;
      }
      connection := Offline;
      if availability != Quarantined {
        availability := Erroneous;
      }
      changed := true;
    }

    method MarkQuarantined()
      modifies this`instance, this`availability
      ensures instance == None && availability == Quarantined
    {
      instance := None;
      availability := Quarantined;
    }

    method ClearQuarantine()
      modifies this`instance, this`availability
      ensures instance == None && availability == Settled(connection)
    {
      instance := None;
      if connection == Online {
        availability := Idle;
      } else {
        availability := Erroneous;
      }
    }

    method ReserveFor(id: string)
      modifies this
      ensures View() == Changed(old(View()), Reserve(id))
    {
      instance := Some(id);
      availability := Reserved;
    }

    method MarkRunning(id: Option<string>)
      modifies this
      ensures View() == Changed(old(View()), Start(id))
    {
      if id.Some? && id.value != "" {
        instance := id;
      }
      availability := Running;
    }

    method Release()
      modifies this
      ensures View() == Changed(old(View()), Free)
    {
      instance := None;
      availability := Idle;
    }
  }

  datatype Error = DeviceRecordNotFound

  class DeviceService {
    var devices: map<string, Device>

    /** No two serials share a device object. */
    ghost predicate Valid()
      reads this
    {
      forall k, k' :: k in devices && k' in devices && devices[k] == devices[k'] ==> k == k'
    }

    ghost function View(): Registry
      reads this, devices.Values
    {
      map k | k in devices :: devices[k].View()
    }

    constructor ()
      ensures Valid() && View() == map[]
    {
      devices := map[];
    }

    method RecordDeviceFailure(serial: string, threshold: Option<int>) returns (r: Result<Record, Error>)
      requires Valid()
      modifies devices.Values
      ensures View() == Step(old(View()), On(serial, Failure(threshold)))
      ensures r == if serial in old(View()) then Ok(View()[serial]) else Err(DeviceRecordNotFound)
    {
      if serial !in devices {
        return Err(DeviceRecordNotFound);
      }
      var device := devices[serial];
      device.failureStreak := device.failureStreak + 1;
      if threshold.Some? && threshold.value > 0 && device.failureStreak >= threshold.value {
        device.MarkQuarantined();
      }
      r := Ok(device.View());
    }

    method RecordDeviceSuccess(serial: string) returns (r: Result<Record, Error>)
      requires Valid()
      modifies devices.Values
      ensures View() == Step(old(View()), On(serial, Success))
      ensures r == if serial in old(View()) then Ok(View()[serial]) else Err(DeviceRecordNotFound)
    {
      if serial !in devices {
        return Err(DeviceRecordNotFound);
      }
      var device := devices[serial];
      device.failureStreak := 0;
      if device.availability != Reserved && device.availability != Running && device.availability != Quarantined {
        device.availability := if device.connection == Online then Idle else Erroneous;
      }
      r := Ok(device.View());
    }

    method ClearDeviceQuarantine(serial: string) returns (r: Result<Record, Error>)
      requires Valid()
      modifies devices.Values
      ensures View() == Step(old(View()), On(serial, Clear))
      ensures r == if serial in old(View()) then Ok(View()[serial]) else Err(DeviceRecordNotFound)
    {
      if serial !in devices {
        return Err(DeviceRecordNotFound);
      }
      var device := devices[serial];
      device.failureStreak := 0;
      device.ClearQuarantine();
      r := Ok(device.View());
    }

    /** Probe one device; `found` is what discovery says of it. */
    method ProbeQuarantinedDevice(serial: string, minutes: int, at: int,
        found: Option<string>) returns (r: Result<ProbeResult, Error>)
      requires Valid()
      modifies devices.Values
      ensures View() == Step(old(View()), On(serial, Probe(minutes, at, found)))
      ensures r == if serial in old(View())
        then Ok(ProbeOf(old(View())[serial], minutes, at, found))
        else Err(DeviceRecordNotFound)
    {
      if serial !in devices {
        return Err(DeviceRecordNotFound);
      }
      var device := devices[serial];
      if device.availability != Quarantined {
        return Ok(NotQuarantined);
      }
      if device.lastProbeAt.Some? {
        var next := device.lastProbeAt.value + ProbeWait(minutes);
        if next > at {
          return Ok(Cooldown(next));
        }
      }
      var result := AttemptProbe(device, minutes, at, found);
      r := Ok(result);
    }

    method AttemptProbe(device: Device, minutes: int, at: int, found: Option<string>) returns (r: ProbeResult)
      requires IsAttempt(ProbeOf(device.View(), minutes, at, found))
      modifies device
      ensures device.View() == Probed(old(device.View()), minutes, at, found)
      ensures r == ProbeOf(old(device.View()), minutes, at, found)
    {
      device.lastProbeAt := Some(at);
      var next := at + ProbeWait(minutes);
      if found.None? {
        return DeviceNotFound(next);
      }
      device.MergeDescriptor(found.value);
      if device.connection == Online {
        device.failureStreak := 0;
        device.ClearQuarantine();
        return Recovered(next);
      }
      r := Still(device.connection, next);
    }

    method SyncDevice(serial: string, found: Option<string>) returns (r: Option<Record>)
      requires Valid()
      modifies this, devices.Values
      ensures Valid() && View() == Step(old(View()), Command.SyncDevice(serial, found))
      ensures r == if found.None? then None else Some(View()[serial])
    {
      if found.None? {
        return None;
      }
      if serial in devices {
        devices[serial].MergeDescriptor(found.value);
      } else {
        var device := new Device(found.value);
        devices := devices[serial := device];
      }
      r := Some(devices[serial].View());
    }

    method SyncDevices(ds: seq<Descriptor>, markMissing: bool)
      requires Valid()
      modifies this, devices.Values
      ensures Valid() && View() == Sync(old(View()), ds, markMissing)
    {
      var known := devices.Keys;
      ghost var before := View();
      assert before.Keys == known;
      SyncDescriptors(ds);
      if markMissing {
        MarkMissingDevices(known - Serials(ds));
      }
    }

    method SyncDescriptors(ds: seq<Descriptor>)
      requires Valid()
      modifies this, devices.Values
      ensures Valid() && View() == SyncFound(old(View()), old(View()).Keys, ds, |ds|)
      ensures forall k :: k in devices ==> fresh(devices[k]) || devices[k] in old(devices.Values)
    {
      var known := devices.Keys;
      ghost var before := View();
      assert before.Keys == known;
      for n := 0 to |ds|
        invariant Valid() && known <= devices.Keys
        invariant View() == SyncFound(before, known, ds, n)
        invariant forall k :: k in devices ==> fresh(devices[k]) || devices[k] in old(devices.Values)
      {
        SyncDescriptor(known, ds[n]);
      }
    }

    /** A descriptor of a device known before the sync is merged, any other makes a new device. */
    method SyncDescriptor(known: set<string>, d: Descriptor)
      requires Valid() && known <= devices.Keys
      modifies this, devices.Values
      ensures Valid() && devices.Keys == old(devices.Keys) + {d.serial}
      ensures View()
        == old(View())[d.serial :=
          if d.serial in known then Merge(old(View())[d.serial], d.status) else Build(d.status)]
      ensures forall k :: k in devices ==> fresh(devices[k]) || devices[k] in old(devices.Values)
    {
      if d.serial in known {
        devices[d.serial].MergeDescriptor(d.status);
      } else {
        var device := new Device(d.status);
        devices := devices[d.serial := device];
      }
    }

    method MarkMissingDevices(missing: set<string>)
      requires Valid() && missing <= devices.Keys
      modifies set k | k in missing :: devices[k]
      ensures View() == MarkAll(old(View()), missing)
    {
      ghost var before := View();
      var rest := missing;
      while rest != {}
        invariant rest <= missing
        invariant forall k :: k in devices ==>
            devices[k].View() == if k in missing && k !in rest then MarkMissing(before[k]) else before[k]
        decreases rest
      {
        var k :| k in rest;
        var changed := devices[k].MarkMissingOffline();
        rest := rest - {k};
      }
    }
  }
}
