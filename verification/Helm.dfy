/**
 The converge machine over a Helm release history (internal/helm/converge.go and
 client.go). The four Helm actions are nondeterministic: how each one ends is a
 parameter of the pass.
 */
module Helm {
  import opened Common

  datatype Status =
    | Unknown | Deployed | Uninstalled | Superseded | FailedStatus
    | Uninstalling | PendingInstall | PendingUpgrade | PendingRollback

  /** Chart values in one normal form, as a sorted encoding gives them. */
  type Values = map<string, string>

  const OWNER_LABEL := "agentgateway.operators.educates.dev/owner"
  const OWNER_VALUE := "agentgateway-educates-operator"

  datatype Release = Release(
    version: nat,
    info: Option<Status>,
    chartVersion: string,
    config: Option<Values>,
    labels: map<string, string>)

  datatype Want = Want(chartVersion: string, values: Values)

  /** A digest of a chart version and values, known by what it was taken of. */
  datatype Fingerprint = Fingerprint(chartVersion: string, values: Values)

  /** Absent values and empty values are the same values. */
  function FingerprintOf(chartVersion: string, values: Option<Values>): Fingerprint {
    Fingerprint(chartVersion, if values.None? then map[] else values.value)
  }

  function WantedPrint(want: Want): Fingerprint {
    FingerprintOf(want.chartVersion, Some(want.values))
  }

  function LivePrint(live: Release): Fingerprint {
    FingerprintOf(live.chartVersion, live.config)
  }

  predicate IsOwned(r: Release) {
    OWNER_LABEL in r.labels && r.labels[OWNER_LABEL] == OWNER_VALUE
  }

  // ----- The two tables -----

  datatype Decision = Install | Upgrade | Repair | Unchanged | Hold | Wait | Refuse

  predicate IsPending(s: Status) {
    s.PendingInstall? || s.PendingUpgrade? || s.PendingRollback?
  }

  function Classify(live: Option<Release>, want: Want): Decision {
    if live.None? || live.value.info.None? then Install
    else if !IsOwned(live.value) then Refuse
    else
      var matches := LivePrint(live.value) == WantedPrint(want);
      match live.value.info.value
      case Deployed => if matches then Unchanged else Upgrade
      case FailedStatus => if matches then Hold else Repair
      case PendingInstall => if matches then Hold else Repair
      case PendingUpgrade => if matches then Hold else Repair
      case PendingRollback => if matches then Hold else Repair
      case Uninstalling => Wait
      case _ => Install
  }

  datatype Method = Rollback | UpgradeInPlace | Reinstall

  function RepairMethod(status: Status, hasDeployed: bool): Method {
    if IsPending(status) && hasDeployed then Rollback
    else if hasDeployed then UpgradeInPlace
    else Reinstall
  }

  // ----- The history -----

  type History = seq<Release>

  /** Revisions count up from one; the last one is what Status returns. */
  predicate Ordered(h: History) {
    && (forall i | 0 <= i < |h| :: h[i].version >= 1)
    && (forall i, j | 0 <= i < j < |h| :: h[i].version < h[j].version)
  }

  predicate AllOwned(h: History) {
    forall i | 0 <= i < |h| :: IsOwned(h[i]) && h[i].info.Some?
  }

  function Latest(h: History): Option<Release> {
    if h == [] then None else Some(h[|h| - 1])
  }

  /** The release store: the history, and how many revisions were ever recorded in it. */
  datatype Store = Store(history: History, recorded: nat)

  function Append(s: Store, h: History, r: Release): Store {
    Store(h + [r], s.recorded + 1)
  }

  predicate Usable(r: Release) {
    r.info == Some(Deployed) || r.info == Some(Superseded)
  }

  predicate HasDeployed(h: History) {
    exists i :: 0 <= i < |h| && Usable(h[i])
  }

  /** The highest usable revision, found by looking at every one of them, in whatever order they are listed. */
  method LastDeployedRevision(h: History) returns (revision: nat, found: bool)
    ensures found <==> exists i :: 0 <= i < |h| && Usable(h[i]) && h[i].version >= 1
    ensures found ==> exists i :: 0 <= i < |h| && Usable(h[i]) && h[i].version == revision
    ensures forall i | 0 <= i < |h| && Usable(h[i]) :: h[i].version <= revision
  {
    revision, found := 0, false;
    for i := 0 to |h|
      invariant found <==> exists k :: 0 <= k < i && Usable(h[k]) && h[k].version >= 1
      invariant found ==> exists k :: 0 <= k < i && Usable(h[k]) && h[k].version == revision
      invariant !found ==> revision == 0
      invariant forall k | 0 <= k < i && Usable(h[k]) :: h[k].version <= revision
    {
      if h[i].info.None? {
        continue;
      }
      match h[i].info.value
      case Deployed => if h[i].version > revision { revision, found := h[i].version, true; }
      case Superseded => if h[i].version > revision { revision, found := h[i].version, true; }
      case _ =>
    }
  }

  /** The index of the highest usable revision. */
  function LastUsable(h: History): (i: nat)
    requires HasDeployed(h)
    ensures i < |h| && Usable(h[i]) && forall k | i < k < |h| :: !Usable(h[k])
  {
    if Usable(h[|h| - 1]) then |h| - 1 else LastUsable(h[..|h| - 1])
  }

  // ----- The actions -----

  /** How an action that records a revision ends: before recording one, with it deployed, or with it failed. */
  datatype Outcome = Nothing | Applied | Broken

  /** How an uninstall ends: the history is purged, left marked as uninstalling, or untouched. */
  datatype Removal = Purged | Stuck | Untouched

  datatype Outcomes = Outcomes(
    statusRead: bool,
    historyRead: bool,
    install: Outcome,
    upgrade: Outcome,
    rollback: Outcome,
    removal: Removal)

  /** Helm keeps empty values as none at all. */
  function Kept(values: Values): Option<Values> {
    if values == map[] then None else Some(values)
  }

  function Recorded(want: Want, version: nat, o: Outcome): Release
    requires !o.Nothing?
  {
    Release(version, Some(if o.Applied? then Deployed else FailedStatus), want.chartVersion, Kept(want.values),
            map[OWNER_LABEL := OWNER_VALUE])
  }

  /** The revisions that were deployed no longer are. */
  function Supersede(h: History): (r: History)
    ensures |r| == |h|
    ensures forall i | 0 <= i < |h| ::
              r[i] == if h[i].info == Some(Deployed) then h[i].(info := Some(Superseded)) else h[i]
  {
    seq(|h|, i requires 0 <= i < |h| => if h[i].info == Some(Deployed) then h[i].(info := Some(Superseded)) else h[i])
  }

  function MarkLast(h: History, s: Status): History
    requires h != []
  {
    h[|h| - 1 := h[|h| - 1].(info := Some(s))]
  }

  function NextVersion(h: History): nat {
    if h == [] then 1 else h[|h| - 1].version + 1
  }

  /** A name with any history at all cannot be installed again. */
  function InstallAfter(s: Store, want: Want, o: Outcome): Store {
    if s.history != [] || o.Nothing? then s else Append(s, [], Recorded(want, 1, o))
  }

  /** A pending operation locks out an upgrade. */
  function UpgradeAfter(s: Store, want: Want, o: Outcome): Store
    requires s.history != []
  {
    var h := s.history;
    var latest := h[|h| - 1];
    if o.Nothing? || (latest.info.Some? && IsPending(latest.info.value)) then s
    else Append(s, if o.Applied? then Supersede(h) else h, Recorded(want, NextVersion(h), o))
  }

  /** A rollback records the target again, under a new revision. */
  function RollbackAfter(s: Store, target: nat, o: Outcome): Store
    requires target < |s.history|
  {
    var h := s.history;
    var copy := h[target].(version := NextVersion(h));
    match o
    case Nothing => s
    case Applied => Append(s, Supersede(h), copy.(info := Some(Deployed)))
    case Broken => Append(s, MarkLast(h, Superseded), copy.(info := Some(FailedStatus)))
  }

  function UninstallAfter(s: Store, removal: Removal): Store
    requires s.history != []
  {
    match removal
    case Purged => s.(history := [])
    case Stuck => s.(history := MarkLast(s.history, Uninstalling))
    case Untouched => s
  }

  // ----- One pass -----

  datatype Action =
    | Installed | Upgraded | RepairedUpgrade | RepairedRollback | RepairedReinstall
    | LeftUnchanged | HeldFailed | WaitingUninstall | RefusedNotOwned
    | Error

  function Repaired(s: Store, want: Want, o: Outcomes): (Store, Action)
    requires s.history != [] && Latest(s.history).value.info.Some?
  {
    match RepairMethod(Latest(s.history).value.info.value, HasDeployed(s.history))
    case Rollback =>
      (RollbackAfter(s, LastUsable(s.history), o.rollback), if o.rollback.Applied? then RepairedRollback else Error)
    case UpgradeInPlace =>
      var t := UpgradeAfter(s, want, o.upgrade);
      (t, if t != s && o.upgrade.Applied? then RepairedUpgrade else Error)
    case Reinstall =>
      var gone := UninstallAfter(s, o.removal);
      if !o.removal.Purged? then (gone, Error)
      else (InstallAfter(gone, want, o.install), if o.install.Applied? then RepairedReinstall else Error)
  }

  function Converge(s: Store, want: Want, o: Outcomes): (Store, Action) {
    var h := s.history;
    if o.statusRead then (s, Error)
    else match Classify(Latest(h), want)
      case Install =>
        (InstallAfter(s, want, o.install), if h == [] && o.install.Applied? then Installed else Error)
      case Upgrade =>
        var t := UpgradeAfter(s, want, o.upgrade);
        (t, if t != s && o.upgrade.Applied? then Upgraded else Error)
      case Repair => if o.historyRead then (s, Error) else Repaired(s, want, o)
      case Unchanged => (s, LeftUnchanged)
      case Hold => (s, HeldFailed)
      case Wait => (s, WaitingUninstall)
      case Refuse => (s, RefusedNotOwned)
  }

  class Client {
    var history: History
    var recorded: nat

    function Now(): Store
      reads this
    {
      Store(history, recorded)
    }

    constructor (s: Store)
      ensures Now() == s
    {
      history, recorded := s.history, s.recorded;
    }

    method Record(h: History, r: Release)
      modifies this
      ensures Now() == Append(old(Now()), h, r)
    {
      history, recorded := h + [r], recorded + 1;
    }

    method DoInstall(want: Want, o: Outcome) returns (ok: bool)
      modifies this
      ensures Now() == InstallAfter(old(Now()), want, o)
      ensures ok <==> old(history) == [] && o.Applied?
    {
      if history != [] || o.Nothing? {
        return false;
      }
      Record([], Recorded(want, 1, o));
      return o.Applied?;
    }

    method DoUpgrade(want: Want, o: Outcome) returns (ok: bool)
      requires history != []
      modifies this
      ensures Now() == UpgradeAfter(old(Now()), want, o)
      ensures ok <==> o.Applied? && Now() != old(Now())
    {
      var latest := history[|history| - 1];
      if o.Nothing? || (latest.info.Some? && IsPending(latest.info.value)) {
        return false;
      }
      Record(if o.Applied? then Supersede(history) else history, Recorded(want, NextVersion(history), o));
      return o.Applied?;
    }

    method DoRollback(revision: nat, o: Outcome) returns (ok: bool)
      requires exists i :: 0 <= i < |history| && history[i].version == revision
      modifies this
      ensures exists i :: 0 <= i < |old(history)| && old(history)[i].version == revision
                          && Now() == RollbackAfter(old(Now()), i, o)
      ensures ok <==> o.Applied?
    {
      var i :| 0 <= i < |history| && history[i].version == revision;
      var copy := history[i].(version := NextVersion(history));
      match o {
        case Nothing =>
        case Applied => Record(Supersede(history), copy.(info := Some(Deployed)));
        case Broken => Record(MarkLast(history, Superseded), copy.(info := Some(FailedStatus)));
      }
      return o.Applied?;
    }

    method DoUninstall(removal: Removal) returns (ok: bool)
      requires history != []
      modifies this`history
      ensures Now() == UninstallAfter(old(Now()), removal)
      ensures ok <==> removal.Purged?
    {
      match removal {
        case Purged => history := [];
        case Stuck => history := MarkLast(history, Uninstalling);
        case Untouched =>
      }
      return removal.Purged?;
    }

    /** An interrupted release: rolled back, upgraded in place, or removed and installed again. */
    method DoRepair(want: Want, o: Outcomes) returns (r: Action)
      requires Ordered(history) && history != [] && Latest(history).value.info.Some?
      modifies this
      ensures (Now(), r) == if o.historyRead then (old(Now()), Error) else Repaired(old(Now()), want, o)
    {
      if o.historyRead {
        return Error;
      }
      var ok;
      var status := history[|history| - 1].info.value;
      var revision, found := LastDeployedRevision(history);
      match RepairMethod(status, found) {
        case Rollback =>
          SameRevision(history, revision);
          ok := DoRollback(revision, o.rollback);
          return if ok then RepairedRollback else Error;
        case UpgradeInPlace =>
          ok := DoUpgrade(want, o.upgrade);
          return if ok then RepairedUpgrade else Error;
        case Reinstall =>
          ok := DoUninstall(o.removal);
          if !ok {
            return Error;
          }
          ok := DoInstall(want, o.install);
          return if ok then RepairedReinstall else Error;
      }
    }

    method EnsureRelease(want: Want, o: Outcomes) returns (r: Action)
      requires Ordered(history)
      modifies this
      ensures (Now(), r) == Converge(old(Now()), want, o)
      ensures Ordered(history)
    {
      ConvergeKeepsOrdered(Now(), want, o);
      if o.statusRead {
        return Error;
      }
      var ok;
      match Classify(Latest(history), want) {
        case Install =>
          ok := DoInstall(want, o.install);
          return if ok then Installed else Error;
        case Upgrade =>
          ok := DoUpgrade(want, o.upgrade);
          return if ok then Upgraded else Error;
        case Repair =>
          r := DoRepair(want, o);
        case Unchanged => return LeftUnchanged;
        case Hold => return HeldFailed;
        case Wait => return WaitingUninstall;
        case Refuse => return RefusedNotOwned;
      }
    }
  }

  /** The highest usable revision names exactly one entry, the last usable one. */
  lemma SameRevision(h: History, revision: nat)
    requires Ordered(h) && HasDeployed(h)
    requires exists i :: 0 <= i < |h| && Usable(h[i]) && h[i].version == revision
    requires forall i | 0 <= i < |h| && Usable(h[i]) :: h[i].version <= revision
    ensures forall i | 0 <= i < |h| :: h[i].version == revision <==> i == LastUsable(h)
  {
    var i :| 0 <= i < |h| && Usable(h[i]) && h[i].version == revision;
    assert h[LastUsable(h)].version <= revision;
    assert i <= LastUsable(h);
  }

  /** However its actions end, a pass leaves a history that counts up. */
  lemma ConvergeKeepsOrdered(s: Store, want: Want, o: Outcomes)
    requires Ordered(s.history)
    ensures Ordered(Converge(s, want, o).0.history)
  {
    if s.history != [] {
      UpgradeKeepsOrdered(s, want, o.upgrade);
      UninstallKeepsOrdered(s, o.removal);
      if HasDeployed(s.history) {
        RollbackKeepsOrdered(s, LastUsable(s.history), o.rollback);
      }
    }
  }

  lemma UpgradeKeepsOrdered(s: Store, want: Want, o: Outcome)
    requires s.history != [] && Ordered(s.history)
    ensures Ordered(UpgradeAfter(s, want, o).history)
  {
    if !o.Nothing? {
      var r := Recorded(want, NextVersion(s.history), o);
      OrderedOneMore(s.history, r);
      OrderedOneMore(Supersede(s.history), r);
    }
  }

  lemma RollbackKeepsOrdered(s: Store, target: nat, o: Outcome)
    requires target < |s.history| && Ordered(s.history)
    ensures Ordered(RollbackAfter(s, target, o).history)
  {
    var copy := s.history[target].(version := NextVersion(s.history));
    OrderedOneMore(Supersede(s.history), copy.(info := Some(Deployed)));
    OrderedOneMore(MarkLast(s.history, Superseded), copy.(info := Some(FailedStatus)));
  }

  lemma UninstallKeepsOrdered(s: Store, removal: Removal)
    requires s.history != [] && Ordered(s.history)
    ensures Ordered(UninstallAfter(s, removal).history)
  {
  }

  lemma OrderedOneMore(h: History, r: Release)
    requires Ordered(h) && r.version == NextVersion(h)
    ensures Ordered(h + [r])
  {
    assert forall i | 0 <= i < |h| :: h[i].version <= h[|h| - 1].version;
  }

  // ----- Convergence -----

  /** How many revisions can still be recorded before the release comes to rest. */
  function Work(h: History, want: Want): nat {
    match Classify(Latest(h), want)
    case Install => if h == [] then 1 else 0
    case Upgrade => 1
    case Repair => if RepairMethod(Latest(h).value.info.value, HasDeployed(h)) == Rollback then 2 else 1
    case _ => 0
  }

  /** A release just recorded from the wanted chart and values is matched by them, empty values included. */
  lemma RecordedRests(h: History, want: Want, version: nat, o: Outcome)
    requires !o.Nothing?
    ensures Work(h + [Recorded(want, version, o)], want) == 0
    ensures IsOwned(Recorded(want, version, o))
  {
    assert Latest(h + [Recorded(want, version, o)]) == Some(Recorded(want, version, o));
  }

  /** After a rollback, whichever way it ended, at most one more revision is ever needed. */
  lemma RollbackRests(s: Store, want: Want, o: Outcome)
    requires AllOwned(s.history) && HasDeployed(s.history) && !o.Nothing?
    requires IsPending(Latest(s.history).value.info.value)
    ensures Work(RollbackAfter(s, LastUsable(s.history), o).history, want) <= 1
  {
    var t := RollbackAfter(s, LastUsable(s.history), o).history;
    assert Latest(t).value.info != None;
    assert !IsPending(Latest(t).value.info.value);
  }

  lemma UpgradeRests(s: Store, want: Want, o: Outcome)
    requires s.history != []
    ensures var t := UpgradeAfter(s, want, o);
            t == s || (t.recorded == s.recorded + 1 && Work(t.history, want) == 0)
  {
    var t := UpgradeAfter(s, want, o);
    if t != s {
      RecordedRests(if o.Applied? then Supersede(s.history) else s.history, want, NextVersion(s.history), o);
    }
  }

  lemma InstallRests(s: Store, want: Want, o: Outcome)
    ensures var t := InstallAfter(s, want, o);
            t == s || (s.history == [] && t.recorded == s.recorded + 1 && Work(t.history, want) == 0)
  {
    var t := InstallAfter(s, want, o);
    if t != s {
      RecordedRests([], want, 1, o);
    }
  }

  /** The measure: every revision a pass records is paid for. */
  lemma PassPays(s: Store, want: Want, o: Outcomes)
    requires AllOwned(s.history)
    ensures var t := Converge(s, want, o).0;
            t.recorded + Work(t.history, want) <= s.recorded + Work(s.history, want)
  {
    match Classify(Latest(s.history), want)
    case Install => InstallRests(s, want, o.install);
    case Upgrade => UpgradeRests(s, want, o.upgrade);
    case Repair =>
      match RepairMethod(Latest(s.history).value.info.value, HasDeployed(s.history)) {
        case Rollback => if !o.rollback.Nothing? { RollbackRests(s, want, o.rollback); }
        case UpgradeInPlace => UpgradeRests(s, want, o.upgrade);
        case Reinstall =>
          if o.removal.Purged? { InstallRests(s.(history := []), want, o.install); }
      }
    case _ =>
  }

  lemma OwnedParts(s: Store, want: Want, o: Outcome, removal: Removal)
    requires AllOwned(s.history) && s.history != []
    ensures AllOwned(UpgradeAfter(s, want, o).history)
    ensures HasDeployed(s.history) ==> AllOwned(RollbackAfter(s, LastUsable(s.history), o).history)
    ensures AllOwned(UninstallAfter(s, removal).history)
  {
    OwnedHistory(s.history);
    if !o.Nothing? {
      OwnedOneMore(s.history, Recorded(want, NextVersion(s.history), o));
      OwnedOneMore(Supersede(s.history), Recorded(want, NextVersion(s.history), o));
    }
  }

  lemma OwnedHistory(h: History)
    requires AllOwned(h) && h != []
    ensures AllOwned(Supersede(h))
    ensures forall status :: AllOwned(MarkLast(h, status))
  {
  }

  lemma OwnedOneMore(h: History, r: Release)
    requires AllOwned(h) && IsOwned(r) && r.info.Some?
    ensures AllOwned(h + [r])
  {
  }

  /** What this operator owns stays its own, and every record keeps its status. */
  lemma PassKeepsOwned(s: Store, want: Want, o: Outcomes)
    requires AllOwned(s.history)
    ensures AllOwned(Converge(s, want, o).0.history)
  {
    if s.history != [] {
      OwnedParts(s, want, o.upgrade, o.removal);
      OwnedParts(s, want, o.rollback, o.removal);
    }
  }

  /** A release this operator does not own is left exactly as it is, whatever its state. */
  lemma ForeignUntouched(s: Store, want: Want, o: Outcomes)
    requires s.history != [] && Latest(s.history).value.info.Some? && !IsOwned(Latest(s.history).value)
    ensures Converge(s, want, o) == (s, if o.statusRead then Error else RefusedNotOwned)
  {
  }

  function Passes(s: Store, want: Want, os: seq<Outcomes>): Store
    decreases |os|
  {
    if os == [] then s else Passes(Converge(s, want, os[0]).0, want, os[1..])
  }

  lemma {:induction false} PassesPay(s: Store, want: Want, os: seq<Outcomes>)
    requires AllOwned(s.history)
    ensures var t := Passes(s, want, os);
            && AllOwned(t.history)
            && t.recorded + Work(t.history, want) <= s.recorded + Work(s.history, want)
    decreases |os|
  {
    if os != [] {
      PassPays(s, want, os[0]);
      PassKeepsOwned(s, want, os[0]);
      PassesPay(Converge(s, want, os[0]).0, want, os[1..]);
    }
  }

  /**
   Revisions do not climb. However every action of every pass ends, any run of
   passes over an owned history with unchanged inputs records at most two
   revisions, and the history stays owned throughout.
   */
  lemma RevisionsBounded(s: Store, want: Want, os: seq<Outcomes>)
    requires AllOwned(s.history)
    ensures s.recorded <= Passes(s, want, os).recorded <= s.recorded + 2
    ensures AllOwned(Passes(s, want, os).history)
  {
    PassesPay(s, want, os);
    RecordedGrows(s, want, os);
  }

  lemma {:induction false} RecordedGrows(s: Store, want: Want, os: seq<Outcomes>)
    ensures s.recorded <= Passes(s, want, os).recorded
    decreases |os|
  {
    if os != [] {
      RecordedGrows(Converge(s, want, os[0]).0, want, os[1..]);
    }
  }

  /** A failed upgrade or rollback adds a failed record; the usable revisions before it stay usable. */
  lemma FailuresOnlyAdd(s: Store, want: Want, target: nat)
    requires s.history != [] && target < |s.history|
    ensures var t := UpgradeAfter(s, want, Broken);
            t != s ==> t.history[..|s.history|] == s.history && t.history[|s.history|].info == Some(FailedStatus)
    ensures var t := RollbackAfter(s, target, Broken);
            && |t.history| == |s.history| + 1 && t.history[|s.history|].info == Some(FailedStatus)
            && forall i | 0 <= i < |s.history| && Usable(s.history[i]) :: Usable(t.history[i])
  {
    var h := s.history;
    assert (h + [Recorded(want, NextVersion(h), Broken)])[..|h|] == h;
  }

  /** At most one revision is deployed. */
  predicate OneDeployed(h: History) {
    forall i, j | 0 <= i < j < |h| :: !(h[i].info == Some(Deployed) && h[j].info == Some(Deployed))
  }

  /** However its actions end, a pass leaves at most one revision deployed. */
  lemma OneDeployedIsKept(s: Store, want: Want, o: Outcomes)
    requires OneDeployed(s.history)
    ensures OneDeployed(Converge(s, want, o).0.history)
  {
    if s.history != [] {
      assert OneDeployed(UpgradeAfter(s, want, o.upgrade).history);
      assert OneDeployed(UninstallAfter(s, o.removal).history);
      if HasDeployed(s.history) {
        assert OneDeployed(RollbackAfter(s, LastUsable(s.history), o.rollback).history);
      }
    }
  }

  /** A repair whose removal got stuck leaves a release the next pass waits for. */
  lemma StuckRemovalWaits(s: Store, want: Want, o: Outcomes, next: Outcomes)
    requires AllOwned(s.history) && !o.statusRead && !o.historyRead && !HasDeployed(s.history)
    requires Classify(Latest(s.history), want) == Repair && o.removal.Stuck? && !next.statusRead
    ensures var t := Converge(s, want, o).0;
            Converge(t, want, next) == (t, WaitingUninstall)
  {
  }

  // ----- Where it comes to rest -----

  const ALL_WORK := Outcomes(false, false, Applied, Applied, Applied, Purged)

  /** The record carries the wanted chart and values, where no values are the same as empty ones. */
  predicate Carries(r: Release, want: Want) {
    r.chartVersion == want.chartVersion && (if r.config.Some? then r.config.value else map[]) == want.values
  }

  predicate Interrupted(status: Status) {
    || status == FailedStatus
    || status == PendingInstall || status == PendingUpgrade || status == PendingRollback
  }

  /**
   Nothing a pass does can help: somebody else's release, a failed or pending one that
   carries what is wanted, one being uninstalled, or a used name with no usable record.
   */
  predicate AtRest(h: History, want: Want) {
    h != [] &&
    var last := h[|h| - 1];
    match last.info
    case None => true
    case Some(status) =>
      || !IsOwned(last)
      || (Interrupted(status) && Carries(last, want))
      || status == Uninstalling || status == Uninstalled || status == Superseded || status == Unknown
  }

  /** The last record is deployed, and is what is wanted. */
  predicate Deploys(h: History, want: Want) {
    h != [] && h[|h| - 1].info == Some(Deployed) && Carries(h[|h| - 1], want)
  }

  /** The last record is this operator's and has that status. */
  predicate Stands(h: History, status: Status) {
    h != [] && IsOwned(h[|h| - 1]) && h[|h| - 1].info == Some(status)
  }

  predicate StandsInterrupted(h: History) {
    h != [] && h[|h| - 1].info.Some? && Interrupted(h[|h| - 1].info.value) && Stands(h, h[|h| - 1].info.value)
  }

  /** Which state of the record, and which outcomes, each answer of a pass tells of when it leaves the store alone. */
  lemma IdleAnswers(s: Store, want: Want, o: Outcomes)
    ensures var (t, r) := Converge(s, want, o);
            var h := s.history;
            && (r == LeftUnchanged <==> !o.statusRead && Stands(h, Deployed) && Carries(h[|h| - 1], want))
            && (r == HeldFailed <==> !o.statusRead && StandsInterrupted(h) && Carries(h[|h| - 1], want))
            && (r == WaitingUninstall <==> !o.statusRead && Stands(h, Uninstalling))
            && (r == RefusedNotOwned <==>
                  !o.statusRead && h != [] && h[|h| - 1].info.Some? && !IsOwned(h[|h| - 1]))
            && (r == LeftUnchanged || r == HeldFailed || r == WaitingUninstall || r == RefusedNotOwned ==> t == s)
  {
  }

  /**
   The same for the answers of a pass that acted. A deployed record is only ever
   upgraded. An interrupted one is rolled back when it is pending and upgraded in place
   when it failed, provided some revision is usable, and reinstalled only when none is.
   */
  lemma ActingAnswers(s: Store, want: Want, o: Outcomes)
    ensures var (t, r) := Converge(s, want, o);
            var h := s.history;
            && (r == Installed <==> !o.statusRead && h == [] && o.install.Applied?)
            && (r == Upgraded <==>
                  !o.statusRead && Stands(h, Deployed) && !Carries(h[|h| - 1], want) && o.upgrade.Applied?)
            && var repairs := !o.statusRead && !o.historyRead && StandsInterrupted(h) && !Carries(h[|h| - 1], want);
               && (r == RepairedRollback <==>
                     repairs && h[|h| - 1].info != Some(FailedStatus) && HasDeployed(h) && o.rollback.Applied?)
               && (r == RepairedUpgrade <==>
                     repairs && h[|h| - 1].info == Some(FailedStatus) && HasDeployed(h) && o.upgrade.Applied?)
               && (r == RepairedReinstall <==>
                     repairs && !HasDeployed(h) && o.removal.Purged? && o.install.Applied?)
  {
  }

  /** However its actions end, a pass never leaves a history with a usable revision without one. */
  lemma UsableIsKept(s: Store, want: Want, o: Outcomes)
    requires HasDeployed(s.history)
    ensures HasDeployed(Converge(s, want, o).0.history)
  {
    var h, t := s.history, Converge(s, want, o).0.history;
    var i := LastUsable(h);
    assert Usable(Supersede(h)[i]);
    if t != h {
      assert i < |t| && Usable(t[i]);
    }
  }

  /**
   When every action works, two passes are enough, and they end with the wanted
   release deployed if and only if the release was not already at rest.
   */
  lemma TwoPassesConverge(s: Store, want: Want)
    requires AllOwned(s.history)
    ensures Deploys(Passes(s, want, [ALL_WORK, ALL_WORK]).history, want) <==> !AtRest(s.history, want)
  {
    var t := Converge(s, want, ALL_WORK).0;
    assert [ALL_WORK, ALL_WORK][1..] == [ALL_WORK] && [ALL_WORK][1..] == [];
    assert Passes(s, want, [ALL_WORK, ALL_WORK]) == Passes(t, want, [ALL_WORK]) == Converge(t, want, ALL_WORK).0;
    if AtRest(s.history, want) {
      assert t == s;
    } else {
      OnePass(s, want);
      OneMorePass(t, want);
    }
  }

  lemma OnePass(s: Store, want: Want)
    requires AllOwned(s.history) && !AtRest(s.history, want)
    ensures var h := Converge(s, want, ALL_WORK).0.history;
            && AllOwned(h)
            && (Classify(Latest(h), want) == Unchanged || Classify(Latest(h), want) == Upgrade)
  {
    PassKeepsOwned(s, want, ALL_WORK);
  }

  lemma OneMorePass(t: Store, want: Want)
    requires AllOwned(t.history)
    requires Classify(Latest(t.history), want) == Unchanged || Classify(Latest(t.history), want) == Upgrade
    ensures Deploys(Converge(t, want, ALL_WORK).0.history, want)
  {
  }
}
