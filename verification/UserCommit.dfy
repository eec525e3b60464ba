/** The two-file protocol of kernel/user.c: saving writes the backup, then the
    primary; recovery reads the primary, else the backup, and heals the primary.  A
    crash inside a file write leaves a strict prefix of the new bytes; a write may also
    fail while the system goes on. */
module UserCommit {
  import opened Basics
  import opened UserCodec

  datatype Files = Files(primary: Option<Bytes>, backup: Option<Bytes>)

  /** `ram` are the accounts in memory while the system runs.  History: `last` is the
      list of the last completed save or recovery, `tried` the lists of saves that have
      crashed or failed since then. */
  datatype System = System(files: Files, running: bool, ram: seq<Account>,
                           last: seq<Account>, tried: set<seq<Account>>)

  /** Where a crash or an error hits a file write: before it, inside it with `k` bytes
      on disk, or behind it. */
  datatype Crash = Early | Torn(k: nat) | Late

  function Crashed(was: Option<Bytes>, b: Bytes, c: Crash): Option<Bytes> {
    match c
    case Early => was
    case Torn(k) => Some(if k < |b| then b[..k] else b)
    case Late => Some(b)
  }

  /** A save or the healing may be cut off by a crash, or report an error and leave the
      system running; the caller of a failed save takes its change back. */
  datatype Event =
    | Save(users: seq<Account>)
    | SaveCrashInBackup(users: seq<Account>, c: Crash)
    | SaveCrashInPrimary(users: seq<Account>, c: Crash)
    | SaveFailsInBackup(users: seq<Account>, c: Crash)
    | SaveFailsInPrimary(users: seq<Account>, c: Crash)
    | PowerLoss
    | Recover
    | RecoverCrash(c: Crash)
    | RecoverHealFails(c: Crash)

  /** What db_load_recover comes back with: 1 primary, 2 backup, 0 neither exists. */
  datatype Recovered = FromPrimary(users: seq<Account>) | FromBackup(users: seq<Account>) | FirstBoot | Lost

  function Recovery(f: Files): Recovered {
    match Load(f.primary)
    case Users(u) => FromPrimary(u)
    case p =>
      match Load(f.backup)
      case Users(u) => FromBackup(u)
      case b => if p.Absent? && b.Absent? then FirstBoot else Lost
  }

  /** The accounts a recovery would come up with now. */
  function Effective(f: Files): Option<seq<Account>> {
    match Recovery(f)
    case FromPrimary(u) => Some(u)
    case FromBackup(u) => Some(u)
    case _ => None
  }

  /** Saves happen in a running system and save well-formed, non-empty lists;
      recovery happens at boot, where one file at least is valid. */
  ghost predicate Legal(s: System, e: Event) {
    match e
    case Save(u) => s.running && ListOk(u) && u != []
    case SaveCrashInBackup(u, c) => s.running && ListOk(u) && u != []
    case SaveCrashInPrimary(u, c) => s.running && ListOk(u) && u != []
    case SaveFailsInBackup(u, c) => s.running && ListOk(u) && u != []
    case SaveFailsInPrimary(u, c) => s.running && ListOk(u) && u != []
    case PowerLoss => true
    case Recover => !s.running && Effective(s.files).Some?
    case RecoverCrash(c) => !s.running && Effective(s.files).Some?
    case RecoverHealFails(c) => !s.running && Recovery(s.files).FromBackup?
  }

  /** Healing after a recovery from the backup rewrites the primary. */
  function Healed(f: Files): Files {
    match Recovery(f)
    case FromBackup(u) => f.(primary := Some(Build(u)))
    case _ => f
  }

  function HealCrashed(f: Files, c: Crash): Files {
    match Recovery(f)
    case FromBackup(u) => f.(primary := Crashed(f.primary, Build(u), c))
    case _ => f
  }

  ghost function Step(s: System, e: Event): System
    requires Legal(s, e)
  {
    match e
    case Save(u) => System(Files(Some(Build(u)), Some(Build(u))), true, u, u, {})
    case SaveCrashInBackup(u, c) =>
      s.(files := s.files.(backup := Crashed(s.files.backup, Build(u), c)), running := false, tried := s.tried + {u})
    case SaveCrashInPrimary(u, c) =>
      s.(files := Files(Crashed(s.files.primary, Build(u), c), Some(Build(u))), running := false,
         tried := s.tried + {u})
    case SaveFailsInBackup(u, c) =>
      s.(files := s.files.(backup := Crashed(s.files.backup, Build(u), c)), tried := s.tried + {u})
    case SaveFailsInPrimary(u, c) =>
      s.(files := Files(Crashed(s.files.primary, Build(u), c), Some(Build(u))), tried := s.tried + {u})
    case PowerLoss => s.(running := false)
    case Recover =>
      var u := Effective(s.files).value;
      System(Healed(s.files), true, u, u, {})
    case RecoverCrash(c) => s.(files := HealCrashed(s.files, c))
    case RecoverHealFails(c) =>
      var u := Effective(s.files).value;
      System(HealCrashed(s.files, c), true, u, u, {})
  }

  // ----- The invariant -----

  /** A valid copy exists; it holds the last completed list or one that was being saved
      since; a running system has the last list in memory and a valid primary. */
  ghost predicate Inv(s: System) {
    && Effective(s.files).Some?
    && (Effective(s.files).value == s.last || Effective(s.files).value in s.tried)
    && (s.running ==> s.ram == s.last && Load(s.files.primary).Users?)
  }

  /** No write that failed without a crash has left a running system with a primary
      that cannot be read. */
  ghost predicate Readable(s: System, e: Event)
    requires Legal(s, e)
  {
    e.SaveFailsInPrimary? || e.RecoverHealFails? ==> Load(Step(s, e).files.primary).Users?
  }

  /** A crashed write of a built file leaves the old file, a corrupt one, or the new one. */
  lemma CrashedLoad(was: Option<Bytes>, u: seq<Account>, c: Crash)
    requires ListOk(u) && u != []
    ensures var l := Load(Crashed(was, Build(u), c));
            l == Load(was) || l == Corrupt || l == Users(u)
  {
    hide Load, Build, ListOk;
    LoadBuild(u);
    if c.Torn? && c.k < |Build(u)| {
      TornIsCorrupt(u, c.k);
    }
  }

  lemma EffectiveOk(f: Files)
    requires Effective(f).Some?
    ensures ListOk(Effective(f).value) && Effective(f).value != []
  {
    hide Load;
    if Load(f.primary).Users? {
      LoadedOk(f.primary);
    } else {
      LoadedOk(f.backup);
    }
  }

  lemma StepKeeps(s: System, e: Event)
    requires Inv(s) && Legal(s, e) && Readable(s, e)
    ensures Inv(Step(s, e))
  {
    hide Load, Build, ListOk, Crashed;
    match e {
      case Save(u) => LoadBuild(u);
      case SaveCrashInBackup(u, c) =>
      case SaveCrashInPrimary(u, c) =>
        LoadBuild(u);
        CrashedLoad(s.files.primary, u, c);
      case SaveFailsInBackup(u, c) =>
      case SaveFailsInPrimary(u, c) => CrashedLoad(s.files.primary, u, c);
      case PowerLoss =>
      case Recover =>
        EffectiveOk(s.files);
        LoadBuild(Effective(s.files).value);
      case RecoverCrash(c) =>
        EffectiveOk(s.files);
        CrashedLoad(s.files.primary, Effective(s.files).value, c);
      case RecoverHealFails(c) =>
        EffectiveOk(s.files);
        CrashedLoad(s.files.primary, Effective(s.files).value, c);
    }
  }

  ghost function Run(s: System, events: seq<Event>): System
    decreases |events|
  {
    if events == [] then s
    else
      var r := Run(s, events[..|events| - 1]);
      var e := events[|events| - 1];
      if Legal(r, e) then Step(r, e) else r
  }

  /** Throughout the run, a failed write leaves a running system a readable primary. */
  ghost predicate StaysReadable(s: System, events: seq<Event>) {
    forall n :: 0 <= n < |events| ==> ReadableAt(Run(s, events[..n]), events[n])
  }

  ghost predicate ReadableAt(s: System, e: Event) {
    Legal(s, e) ==> Readable(s, e)
  }

  lemma ReadableFront(s: System, events: seq<Event>, m: nat)
    requires StaysReadable(s, events) && m <= |events|
    ensures StaysReadable(s, events[..m])
  {
    var front := events[..m];
    forall n | 0 <= n < m
      ensures ReadableAt(Run(s, front[..n]), front[n])
    {
      assert front[..n] == events[..n];
    }
  }

  lemma {:induction false} RunKeeps(s: System, events: seq<Event>)
    requires Inv(s) && StaysReadable(s, events)
    ensures Inv(Run(s, events))
    decreases |events|
  {
    hide Inv, Step, Legal, Readable;
    if events != [] {
      var n := |events| - 1;
      ReadableFront(s, events, n);
      RunKeeps(s, events[..n]);
      var r, e := Run(s, events[..n]), events[n];
      assert ReadableAt(r, e);
      if Legal(r, e) {
        StepKeeps(r, e);
      }
    }
  }

  /** After any sequence of saves, crashes, failed writes and recoveries one valid copy
      survives, and recovery gives the last completed list or one whose save was cut off
      or failed since. */
  lemma OldOrNew(s: System, events: seq<Event>)
    requires Inv(s) && StaysReadable(s, events)
    ensures var r := Run(s, events);
            && (Load(r.files.primary).Users? || Load(r.files.backup).Users?)
            && Effective(r.files).Some?
            && (Effective(r.files).value == r.last || Effective(r.files).value in r.tried)
  {
    hide Load, Run, StaysReadable;
    RunKeeps(s, events);
  }

  /** Crashes alone never need that hypothesis. */
  lemma CrashesAreReadable(s: System, events: seq<Event>)
    requires forall n :: 0 <= n < |events| ==> !events[n].SaveFailsInPrimary? && !events[n].RecoverHealFails?
    ensures StaysReadable(s, events)
  {
    hide Step, Legal;
  }

  /** Events that start no new save. */
  predicate NoSave(e: Event) {
    e.PowerLoss? || e.Recover? || e.RecoverCrash? || e.RecoverHealFails?
  }

  /** A completed save is never lost: until the next save, whatever crashes and
      recoveries follow, recovery gives exactly its accounts. */
  lemma {:induction false} SaveIsDurable(s: System, u: seq<Account>, events: seq<Event>)
    requires Inv(s) && Legal(s, Save(u)) && forall i :: 0 <= i < |events| ==> NoSave(events[i])
    ensures var r := Run(Step(s, Save(u)), events);
            Inv(r) && r.last == u && r.tried == {} && Load(r.files.primary) == Users(u) && Effective(r.files) == Some(u)
    decreases |events|
  {
    hide Load, Build, Crashed, ListOk;
    if events == [] {
      LoadBuild(u);
    } else {
      var init := events[..|events| - 1];
      SaveIsDurable(s, u, init);
      assert NoSave(events[|events| - 1]);
    }
  }

  // ----- Which list a recovery gives -----

  /** The primary if it can be read, else the backup if that can be read; nothing else. */
  lemma PrimaryFirst(f: Files)
    ensures Effective(f)
         == if Load(f.primary).Users? then Some(Load(f.primary).users)
            else if Load(f.backup).Users? then Some(Load(f.backup).users) else None
    ensures Recovery(f).FromPrimary? <==> Load(f.primary).Users?
    ensures Recovery(f).FirstBoot? <==> f.primary.None? && f.backup.None?
  {
  }

  /** A save that ends in the backup, by a crash or an error, is as if it had not begun; one
      that has got beyond the backup leads to the new list, except that a primary that was
      not touched yet still counts while it can be read. */
  lemma CutOffSave(s: System, u: seq<Account>, c: Crash)
    requires Inv(s) && s.running && ListOk(u) && u != []
    ensures Effective(Step(s, SaveCrashInBackup(u, c)).files) == Effective(s.files)
    ensures Effective(Step(s, SaveFailsInBackup(u, c)).files) == Effective(s.files)
    ensures Effective(Step(s, SaveCrashInPrimary(u, c)).files) == if c.Early? then Effective(s.files) else Some(u)
    ensures Effective(Step(s, SaveFailsInPrimary(u, c)).files) == if c.Early? then Effective(s.files) else Some(u)
    ensures Step(s, SaveFailsInBackup(u, c)).ram == s.ram && Step(s, SaveFailsInPrimary(u, c)).ram == s.ram
  {
    hide Load, Build, ListOk, Crashed;
    LoadBuild(u);
    LoadCrashed(s.files.primary, u, c);
  }

  /** What is read after a write was cut off: the old file, nothing, or the new one. */
  lemma LoadCrashed(was: Option<Bytes>, u: seq<Account>, c: Crash)
    requires ListOk(u) && u != []
    ensures Load(Crashed(was, Build(u), c))
         == (match c
             case Early => Load(was)
             case Torn(k) => if k < |Build(u)| then Corrupt else Users(u)
             case Late => Users(u))
  {
    hide Load, Build, ListOk;
    LoadBuild(u);
    if c.Torn? && c.k < |Build(u)| {
      TornIsCorrupt(u, c.k);
    }
  }

  /** Recovery brings the list into memory and, by healing, into the primary. */
  lemma RecoveredList(s: System)
    requires Inv(s) && Legal(s, Recover)
    ensures var r := Step(s, Recover);
            && r.running && Some(r.ram) == Effective(s.files) && Load(r.files.primary) == Users(r.ram)
            && r.files.backup == s.files.backup
  {
    EffectiveOk(s.files);
    LoadBuild(Effective(s.files).value);
    hide Load, Build, ListOk;
  }

  // ----- Which states a crashed save cannot destroy -----

  /** Some copy can be read whatever a crash leaves of the next save's backup. */
  ghost predicate SurvivesCrash(f: Files, u: seq<Account>) {
    forall c :: Effective(f.(backup := Crashed(f.backup, Build(u), c))).Some?
  }

  /** With a valid copy at hand, a save may be cut off anywhere in its first file exactly
      if the primary is valid: this is why recovery heals the primary alone, and why a
      heal that fails unnoticed matters. */
  lemma OnlyValidPrimarySurvives(f: Files, u: seq<Account>)
    requires Effective(f).Some? && ListOk(u) && u != []
    ensures SurvivesCrash(f, u) <==> Load(f.primary).Users?
  {
    TornIsCorrupt(u, 0);
    hide Build, ListOk, Load;
    if !Load(f.primary).Users? {
      var torn := f.(backup := Crashed(f.backup, Build(u), Torn(0)));
      assert torn.backup == Some(Build(u)[..0]);
      assert Effective(torn).None?;
    }
  }

  /** Such a loss takes a failed heal and one crash. */
  lemma FailedHealCanLose(u: seq<Account>)
    requires ListOk(u) && u != []
    ensures var s := System(Files(Some([]), Some(Build(u))), false, u, u, {});
            var r := Run(s, [RecoverHealFails(Early), SaveCrashInBackup(u, Torn(0))]);
            Inv(s) && Effective(r.files).None?
  {
    var f := Files(Some([]), Some(Build(u)));
    EmptyPrimary(u);
    hide Build, ListOk, Load, Effective, Recovery;
    var s := System(f, false, u, u, {});
    var e1, e2 := RecoverHealFails(Early), SaveCrashInBackup(u, Torn(0));
    assert [e1, e2][..1] == [e1] && [e1][..0] == [];
    assert Run(s, []) == s;
    HealEarly(f);
    assert Run(s, [e1]) == Step(s, e1) == System(f, true, u, u, {});
  }

  lemma HealEarly(f: Files)
    ensures HealCrashed(f, Early) == f
  {
  }

  lemma EmptyPrimary(u: seq<Account>)
    requires ListOk(u) && u != []
    ensures var f := Files(Some([]), Some(Build(u)));
            && Recovery(f) == FromBackup(u) && Effective(f) == Some(u)
            && Effective(f.(backup := Crashed(f.backup, Build(u), Torn(0)))).None?
  {
    LoadBuild(u);
    TornIsCorrupt(u, 0);
    assert Build(u)[..0] == [];
    hide Build, ListOk;
  }
}
