/** The transfers of oiseau.py, lines 168-255: fetch the date of the
    previous sync, upload each enabled directory, dump and upload the
    database, upload the new sync date, and keep the chat progress message
    up to date.  The first non-zero exit code ends the run.

    Commands are not executed: the exit code each step would get, the
    contents of the fetched date file, the chat service's answer to the
    first post and the current time are inputs (`World`).  The local files
    the script creates and removes are tracked as a set of paths. */
module Transfer {
  import opened Wrappers
  import opened Text
  import opened Config
  import opened Errors
  import opened Status
  import opened Credentials
  import Commands

  const MarkerFile: string := "latest_sync.txt"
  const FetchedMarker: string := "tmp/latest_sync.txt"
  const DumpFile: string := "tmp/db.sql"
  const ArchiveFile: string := "tmp/db.tar.gz"
  const NeverSynced: string := "Never"

  /** One external command of the run.  `Sync(Database)` is the upload of
      the database dump; `Sync(c)` for any other `c` uploads its folder. */
  datatype Step = FetchMarker | Sync(category: Category) | Dump | SyncMarker

  /** What the script learns from outside: each step's exit code, the
      contents of `tmp/latest_sync.txt` after the download (`None` when the
      file is not there), the chat service's answer to the first post, and
      `time.strftime('%x %X %Z')` at the end. */
  datatype World = World(exit: Step -> int, fetched: Option<string>, chat: Option<ChatReply>, now: string)

  /** `ran` lists the steps whose command was run so far (`Lines` gives
      their shell lines); `shown` holds the
      progress message as it stood at each `sync_done`, one entry per
      refresh (`Edits` turns them into the edits actually sent). */
  datatype State = State(msg: Message, ran: seq<Step>, shown: seq<Message>, files: set<string>)

  /** `error` is the `CriticalError` that ended the run, if any. */
  datatype Outcome = Outcome(state: State, error: Option<CriticalError>)

  /** The file the database upload sends: the archive when compressing. */
  function DatabaseArtifact(cfg: Settings): (r: string)
    ensures r == DumpFile || r == ArchiveFile
    ensures r == ArchiveFile <==> cfg.compressDatabase
  {
    if cfg.compressDatabase then ArchiveFile else DumpFile
  }

  /** The shell line of each step, built with the command builders of utils.py. */
  function CommandOf(step: Step, cfg: Settings, ep: Endpoint): string
  {
    match step
    case FetchMarker =>
      Commands.ScpDownloadCmd(ep.remote + "/" + MarkerFile, ep.port, FetchedMarker, cfg.sshKeyLocation)
    case Sync(c) =>
      var source := if c == Database then DatabaseArtifact(cfg) else Folder(cfg, c);
      Commands.RsyncUploadCmd(source, ep.remote, ep.port, cfg.sshKeyLocation)
    case Dump =>
      Commands.DumpCmd(cfg.dbUsername, cfg.dbPassword, cfg.dbName, DumpFile)
    case SyncMarker =>
      Commands.RsyncUploadCmd(MarkerFile, ep.remote, ep.port, cfg.sshKeyLocation)
  }

  function Lines(steps: seq<Step>, cfg: Settings, ep: Endpoint): (r: seq<string>)
    ensures |r| == |steps| && forall i :: 0 <= i < |r| ==> r[i] == CommandOf(steps[i], cfg, ep)
  {
    seq(|steps|, i requires 0 <= i < |steps| => CommandOf(steps[i], cfg, ep))
  }

  /** The error a failing step raises. */
  function Failure(step: Step, code: int): CriticalError
    requires step != FetchMarker
  {
    match step
    case Sync(c) => if c == Database then DatabaseSyncFailed(code) else SyncFailed(c, code)
    case Dump => DumpFailed(code)
    case SyncMarker => MarkerSyncFailed(code)
  }

  /** The uploads of the enabled directories, in the loop's order;
      `config["SYNC_" + d]` is `c in cfg.enabled` (see `Config.SyncFlag`). */
  function DirectorySteps(dirs: seq<Category>, cfg: Settings): (r: seq<Step>)
    ensures forall s :: s in r <==> exists c :: s == Sync(c) && c in dirs && c in cfg.enabled
    ensures |r| <= |dirs|
    ensures (forall i :: 0 <= i < |dirs| ==> dirs[i] !in cfg.enabled) ==> r == []
    decreases |dirs|
  {
    if dirs == [] then []
    else
      var rest := DirectorySteps(dirs[1..], cfg);
      assert forall c :: c in dirs <==> c == dirs[0] || c in dirs[1..];
      if dirs[0] in cfg.enabled then [Sync(dirs[0])] + rest else rest
  }

  /** Uploading the directories of two lists is uploading those of the
      first, then those of the second. */
  lemma {:induction false} DirectoryStepsAppend(a: seq<Category>, b: seq<Category>, cfg: Settings)
    ensures DirectorySteps(a + b, cfg) == DirectorySteps(a, cfg) + DirectorySteps(b, cfg)
    decreases |a|
  {
    if a == [] {
      assert a + b == b;
    } else {
      assert (a + b)[0] == a[0] && (a + b)[1..] == a[1..] + b;
      DirectoryStepsAppend(a[1..], b, cfg);
    }
  }

  /** The uploads among `steps` follow the category order, each category
      at most once. */
  predicate InCategoryOrder(steps: seq<Step>)
  {
    forall i, j :: 0 <= i < j < |steps| && steps[i].Sync? && steps[j].Sync? ==>
      Index(steps[i].category) < Index(steps[j].category)
  }

  /** A list of directories in category order is uploaded in category
      order. */
  lemma {:induction false} DirectoryStepsOrdered(dirs: seq<Category>, cfg: Settings)
    requires forall i, j :: 0 <= i < j < |dirs| ==> Index(dirs[i]) < Index(dirs[j])
    ensures InCategoryOrder(DirectorySteps(dirs, cfg))
    decreases |dirs|
  {
    if dirs != [] {
      var rest := DirectorySteps(dirs[1..], cfg);
      DirectoryStepsOrdered(dirs[1..], cfg);
      if dirs[0] in cfg.enabled {
        var r := [Sync(dirs[0])] + rest;
        assert DirectorySteps(dirs, cfg) == r;
        forall k | 0 <= k < |rest| ensures rest[k].Sync? && Index(dirs[0]) < Index(rest[k].category) {
          assert rest[k] in rest;
          var c :| rest[k] == Sync(c) && c in dirs[1..] && c in cfg.enabled;
          var m :| 0 <= m < |dirs[1..]| && dirs[1..][m] == c;
          assert dirs[1..][m] == dirs[m + 1];
        }
        forall i, j | 0 <= i < j < |r| && r[i].Sync? && r[j].Sync?
          ensures Index(r[i].category) < Index(r[j].category)
        {
          assert r[j] == rest[j - 1];
          if i > 0 {
            assert r[i] == rest[i - 1];
          }
        }
      }
    }
  }

  /** Every step after the download, in order: the enabled directories,
      then the dump and its upload when the database is enabled, then the
      new sync date. */
  function Plan(cfg: Settings): seq<Step>
  {
    DirectorySteps(Directories, cfg)
    + (if Database in cfg.enabled then [Dump, Sync(Database)] else [])
    + [SyncMarker]
  }

  /** What a successful step does to the local files: the dump's shell
      redirection creates `tmp/db.sql`, compressing adds the archive, the
      database upload removes both, and the date file is written before
      its upload. */
  function Touch(step: Step, cfg: Settings, files: set<string>): set<string>
  {
    match step
    case Dump => files + {DumpFile} + (if cfg.compressDatabase then {ArchiveFile} else {})
    case Sync(c) => if c == Database then files - {DumpFile, ArchiveFile} else files
    case SyncMarker => files + {MarkerFile}
    case FetchMarker => files - {FetchedMarker}
  }

  function TouchAll(steps: seq<Step>, cfg: Settings, files: set<string>): set<string>
    decreases |steps|
  {
    if steps == [] then files else TouchAll(steps[1..], cfg, Touch(steps[0], cfg, files))
  }

  /** The progress table keeps one item per category, in category order,
      and every shown message carries the same id. */
  predicate Valid(st: State)
  {
    && Standard(st.msg.doneWhat)
    && forall i :: 0 <= i < |st.shown| ==>
         Standard(st.shown[i].doneWhat) && st.shown[i].messageId == st.msg.messageId
  }

  /** The text of a shown message, as the script writes it. */
  function Shown(m: Message, cfg: Settings): string
    requires Standard(m.doneWhat)
  {
    StandardKnown(m.doneWhat);
    RenderAsWritten(m, cfg)
  }

  /** The edits `update_telegram_message` sends: one per refresh, none at
      all when the first post produced no message id. */
  function Edits(st: State, cfg: Settings): (r: seq<Edit>)
    requires Valid(st)
    ensures st.msg.messageId.None? ==> r == []
    ensures st.msg.messageId.Some? ==>
              |r| == |st.shown| && forall i :: 0 <= i < |r| ==>
                r[i] == Edit(cfg.telegramChatId, st.msg.messageId.value, Shown(st.shown[i], cfg))
  {
    match st.msg.messageId
    case None => []
    case Some(id) =>
      seq(|st.shown|, i requires 0 <= i < |st.shown| => Edit(cfg.telegramChatId, id, Shown(st.shown[i], cfg)))
  }

  /** `sync_done(what, telegram_status_message)` on the run's state. */
  function Mark(what: Option<string>, st: State): (r: State)
    requires Valid(st)
    requires what.Some? ==> Lower(what.value) in Keys(st.msg.doneWhat)
    ensures Valid(r)
  {
    var m := Marked(what, st.msg);
    st.(msg := m, shown := st.shown + [m])
  }

  /** Each refresh `Mark` records is the one `sync_done` sends. */
  lemma MarkIsSyncDone(what: Option<string>, st: State, cfg: Settings)
    requires Valid(st) && KnownKeys(st.msg.doneWhat) && st.msg.messageId.Some?
    requires what.Some? ==> Lower(what.value) in Keys(st.msg.doneWhat)
    ensures var r := Mark(what, st);
            && r.msg == SyncDone(what, st.msg, cfg).0
            && Edits(r, cfg) == Edits(st, cfg) + [SyncDone(what, st.msg, cfg).1.value]
  {
    var r := Mark(what, st);
    assert Edits(r, cfg)[..|st.shown|] == Edits(st, cfg);
  }

  /** One step after the download: run its command and, on exit code 0,
      do what follows it in the script; otherwise raise its error. */
  function Perform(step: Step, world: World, cfg: Settings, st: State): (r: Outcome)
    requires step != FetchMarker
    requires Valid(st)
    ensures Valid(r.state)
    ensures r.error.None? <==> world.exit(step) == 0
    ensures r.error.Some? ==> r.error.value == Failure(step, world.exit(step))
    ensures r.state.ran == st.ran + [step]
    ensures r.state.msg.messageId == st.msg.messageId
    ensures forall i :: 0 <= i < |st.msg.doneWhat| && st.msg.doneWhat[i].done ==> r.state.msg.doneWhat[i].done
    ensures r.error.None? && step.Sync? ==> r.state.msg.doneWhat[Index(step.category)].done
    ensures r.error.None? && step != Dump ==> r.state.shown == st.shown + [r.state.msg]
    ensures r.error.Some? || step == Dump ==> r.state.shown == st.shown
    ensures step == Dump ==> r.state.msg == st.msg
    ensures r.state.msg.latestSync == if r.error.None? && step == SyncMarker then world.now else st.msg.latestSync
    ensures r.error.None? ==> r.state.files == Touch(step, cfg, st.files)
  {
    var code := world.exit(step);
    var ran := st.(ran := st.ran + [step]);
    match step
    case Sync(c) =>
      if code != 0 then Outcome(ran, Some(Failure(step, code)))
      else
        var what := if c == Database then Key(c) else Upper(Key(c));
        KeyUpperLower(c);
        StandardHasKey(st.msg.doneWhat, c);
        var marked := Mark(Some(what), ran);
        LookupCategory(marked.msg.doneWhat, c);
        Outcome(marked.(files := Touch(step, cfg, st.files)), None)
    case Dump =>
      var created := ran.(files := st.files + {DumpFile});
      if code != 0 then Outcome(created, Some(Failure(step, code)))
      else Outcome(created.(files := Touch(step, cfg, st.files)), None)
    case SyncMarker =>
      var written := ran.(files := Touch(step, cfg, st.files));
      if code != 0 then Outcome(written, Some(Failure(step, code)))
      else Outcome(Mark(None, written.(msg := written.msg.(latestSync := world.now))), None)
  }

  /** The position of the first step whose command exits with a non-zero
      code, or the number of steps when there is none. */
  function FirstFailure(steps: seq<Step>, exit: Step -> int): (k: nat)
    ensures k <= |steps|
    ensures forall j :: 0 <= j < k ==> exit(steps[j]) == 0
    ensures k < |steps| ==> exit(steps[k]) != 0
    decreases |steps|
  {
    if steps == [] || exit(steps[0]) != 0 then 0
    else
      var k := FirstFailure(steps[1..], exit);
      assert forall j :: 1 <= j < k + 1 ==> steps[j] == steps[1..][j - 1];
      k + 1
  }

  /** The steps in order, stopping at the first that fails; what a run
      achieves is stated by the lemmas below. */
  function Exec(steps: seq<Step>, world: World, cfg: Settings, st: State): (r: Outcome)
    requires FetchMarker !in steps
    requires Valid(st)
    ensures Valid(r.state)
    decreases |steps|
  {
    if steps == [] then Outcome(st, None)
    else
      var o := Perform(steps[0], world, cfg, st);
      if o.error.Some? then o
      else
        assert FetchMarker !in steps[1..];
        Exec(steps[1..], world, cfg, o.state)
  }

  /** Running the first step, then `k` more. */
  lemma RanAfterFirst(ran: seq<Step>, steps: seq<Step>, k: nat)
    requires k < |steps|
    ensures ran + steps[..k + 1] == (ran + [steps[0]]) + steps[1..][..k]
    ensures k == |steps| - 1 ==> ran + steps == (ran + [steps[0]]) + steps[1..]
  {
    assert steps[..k + 1] == [steps[0]] + steps[1..][..k];
    assert steps == steps[..|steps|];
  }

  /** The run succeeds exactly when every command exits with 0, and then
      every step has run. */
  lemma {:induction false} ExecSucceeds(steps: seq<Step>, world: World, cfg: Settings, st: State)
    requires FetchMarker !in steps && Valid(st)
    ensures var r := Exec(steps, world, cfg, st);
            && (r.error.None? <==> forall i :: 0 <= i < |steps| ==> world.exit(steps[i]) == 0)
            && (r.error.None? ==> r.state.ran == st.ran + steps)
    decreases |steps|
  {
    if steps != [] {
      var o := Perform(steps[0], world, cfg, st);
      if o.error.None? {
        assert FetchMarker !in steps[1..];
        assert Exec(steps, world, cfg, st) == Exec(steps[1..], world, cfg, o.state);
        ExecSucceeds(steps[1..], world, cfg, o.state);
        assert (forall i :: 0 <= i < |steps| ==> world.exit(steps[i]) == 0)
               <==> (forall i :: 0 <= i < |steps[1..]| ==> world.exit(steps[1..][i]) == 0) by {
          assert world.exit(steps[0]) == 0;
          assert forall i :: 1 <= i < |steps| ==> steps[i] == steps[1..][i - 1];
        }
        RanAfterFirst(st.ran, steps, |steps| - 1);
      }
    }
  }

  /** A failed run stops at the first command with a non-zero exit code:
      that command names the error and is the last to run. */
  lemma {:induction false} ExecStops(steps: seq<Step>, world: World, cfg: Settings, st: State)
    requires FetchMarker !in steps && Valid(st)
    ensures var r := Exec(steps, world, cfg, st);
            r.error.Some? ==>
              var k := FirstFailure(steps, world.exit);
              && k < |steps|
              && r.error.value == Failure(steps[k], world.exit(steps[k]))
              && r.state.ran == st.ran + steps[..k + 1]
    decreases |steps|
  {
    if steps != [] {
      var o := Perform(steps[0], world, cfg, st);
      if o.error.Some? {
        assert steps[..1] == [steps[0]];
      } else {
        assert FetchMarker !in steps[1..];
        assert Exec(steps, world, cfg, st) == Exec(steps[1..], world, cfg, o.state);
        ExecStops(steps[1..], world, cfg, o.state);
        var r := Exec(steps[1..], world, cfg, o.state);
        if r.error.Some? {
          var k := FirstFailure(steps[1..], world.exit);
          assert FirstFailure(steps, world.exit) == k + 1;
          assert steps[k + 1] == steps[1..][k];
          RanAfterFirst(st.ran, steps, k + 1);
        }
      }
    }
  }

  /** What the steps do to the progress message: its id stays, nothing
      done becomes undone, and after a successful run every uploaded
      category is done and the date is the new one exactly when the date
      file was uploaded; a run that fails before any date upload keeps
      the old date. */
  lemma ExecProgress(steps: seq<Step>, world: World, cfg: Settings, st: State)
    requires FetchMarker !in steps && Valid(st)
    ensures var r := Exec(steps, world, cfg, st);
            && r.state.msg.messageId == st.msg.messageId
            && (forall i :: 0 <= i < |st.msg.doneWhat| && st.msg.doneWhat[i].done ==> r.state.msg.doneWhat[i].done)
            && (r.error.None? ==>
                  forall i :: 0 <= i < |steps| && steps[i].Sync? ==> r.state.msg.doneWhat[Index(steps[i].category)].done)
            && (r.error.None? ==>
                  r.state.msg.latestSync == if SyncMarker in steps then world.now else st.msg.latestSync)
            && (r.error.Some? && (forall j :: 0 <= j < |steps| - 1 ==> steps[j] != SyncMarker) ==>
                  r.state.msg.latestSync == st.msg.latestSync)
  {
    ExecKeepsDone(steps, world, cfg, st);
    ExecMarksUploads(steps, world, cfg, st);
    ExecDate(steps, world, cfg, st);
  }

  /** The message keeps its id, and nothing done becomes undone. */
  lemma {:induction false} ExecKeepsDone(steps: seq<Step>, world: World, cfg: Settings, st: State)
    requires FetchMarker !in steps && Valid(st)
    ensures var r := Exec(steps, world, cfg, st);
            && r.state.msg.messageId == st.msg.messageId
            && (forall i :: 0 <= i < |st.msg.doneWhat| && st.msg.doneWhat[i].done ==> r.state.msg.doneWhat[i].done)
    decreases |steps|
  {
    if steps != [] {
      var o := Perform(steps[0], world, cfg, st);
      if o.error.None? {
        assert FetchMarker !in steps[1..];
        ExecKeepsDone(steps[1..], world, cfg, o.state);
      }
    }
  }

  /** After a successful run every uploaded category is done. */
  lemma {:induction false} ExecMarksUploads(steps: seq<Step>, world: World, cfg: Settings, st: State)
    requires FetchMarker !in steps && Valid(st)
    ensures var r := Exec(steps, world, cfg, st);
            r.error.None? ==>
              forall i :: 0 <= i < |steps| && steps[i].Sync? ==> r.state.msg.doneWhat[Index(steps[i].category)].done
    decreases |steps|
  {
    if steps != [] {
      var o := Perform(steps[0], world, cfg, st);
      if o.error.None? {
        assert FetchMarker !in steps[1..];
        ExecMarksUploads(steps[1..], world, cfg, o.state);
        ExecKeepsDone(steps[1..], world, cfg, o.state);
        var r := Exec(steps[1..], world, cfg, o.state);
        assert Exec(steps, world, cfg, st) == r;
        if r.error.None? {
          forall i | 0 <= i < |steps| && steps[i].Sync?
            ensures r.state.msg.doneWhat[Index(steps[i].category)].done
          {
            if i > 0 {
              assert steps[i] == steps[1..][i - 1];
            }
          }
        }
      }
    }
  }

  /** The date is the new one after a successful run exactly when the date
      file was uploaded; a run that fails before any date upload keeps the
      old one. */
  lemma {:induction false} ExecDate(steps: seq<Step>, world: World, cfg: Settings, st: State)
    requires FetchMarker !in steps && Valid(st)
    ensures var r := Exec(steps, world, cfg, st);
            && (r.error.None? ==>
                  r.state.msg.latestSync == if SyncMarker in steps then world.now else st.msg.latestSync)
            && (r.error.Some? && (forall j :: 0 <= j < |steps| - 1 ==> steps[j] != SyncMarker) ==>
                  r.state.msg.latestSync == st.msg.latestSync)
    decreases |steps|
  {
    if steps != [] {
      var o := Perform(steps[0], world, cfg, st);
      if o.error.None? {
        assert FetchMarker !in steps[1..];
        ExecDate(steps[1..], world, cfg, o.state);
        assert SyncMarker in steps <==> SyncMarker == steps[0] || SyncMarker in steps[1..];
        assert forall j :: 0 <= j < |steps[1..]| - 1 ==> steps[1..][j] == steps[j + 1];
      }
    }
  }

  /** The last message shown is the current one, unless nothing was shown yet. */
  predicate ShowsCurrent(st: State)
  {
    st.shown == [] || st.shown[|st.shown| - 1] == st.msg
  }

  /** A successful run leaves the last message shown equal to the current
      one, when it started that way. */
  lemma {:induction false} ExecShowsCurrent(steps: seq<Step>, world: World, cfg: Settings, st: State)
    requires FetchMarker !in steps && Valid(st) && ShowsCurrent(st)
    ensures var r := Exec(steps, world, cfg, st);
            r.error.None? ==> ShowsCurrent(r.state)
    decreases |steps|
  {
    if steps != [] {
      var o := Perform(steps[0], world, cfg, st);
      if o.error.None? {
        assert FetchMarker !in steps[1..];
        assert Exec(steps, world, cfg, st) == Exec(steps[1..], world, cfg, o.state);
        assert ShowsCurrent(o.state) by {
          if steps[0] != Dump {
            assert o.state.shown[|o.state.shown| - 1] == o.state.msg;
          }
        }
        ExecShowsCurrent(steps[1..], world, cfg, o.state);
      }
    }
  }

  /** A successful run whose last step is not the dump shows at least one
      message. */
  lemma {:induction false} ExecShows(steps: seq<Step>, world: World, cfg: Settings, st: State)
    requires FetchMarker !in steps && Valid(st)
    requires steps != [] && steps[|steps| - 1] != Dump
    ensures var r := Exec(steps, world, cfg, st);
            r.error.None? ==> r.state.shown != []
    decreases |steps|
  {
    var o := Perform(steps[0], world, cfg, st);
    if o.error.None? {
      assert FetchMarker !in steps[1..];
      assert Exec(steps, world, cfg, st) == Exec(steps[1..], world, cfg, o.state);
      if |steps| > 1 {
        assert steps[1..][|steps[1..]| - 1] == steps[|steps| - 1];
        ExecShows(steps[1..], world, cfg, o.state);
      } else {
        assert steps[1..] == [];
      }
    }
  }

  /** After a successful run the local files are those the steps leave. */
  lemma {:induction false} ExecFiles(steps: seq<Step>, world: World, cfg: Settings, st: State)
    requires FetchMarker !in steps && Valid(st)
    ensures var r := Exec(steps, world, cfg, st);
            r.error.None? ==> r.state.files == TouchAll(steps, cfg, st.files)
    decreases |steps|
  {
    if steps != [] {
      var o := Perform(steps[0], world, cfg, st);
      if o.error.None? {
        assert FetchMarker !in steps[1..];
        assert Exec(steps, world, cfg, st) == Exec(steps[1..], world, cfg, o.state);
        ExecFiles(steps[1..], world, cfg, o.state);
      }
    }
  }

  /** Every plan ends with the date upload, which appears nowhere else,
      and the dump comes right before the database upload. */
  lemma PlanShape(cfg: Settings)
    ensures FetchMarker !in Plan(cfg)
    ensures |Plan(cfg)| >= 1 && Plan(cfg)[|Plan(cfg)| - 1] == SyncMarker
    ensures forall j :: 0 <= j < |Plan(cfg)| - 1 ==> Plan(cfg)[j] != SyncMarker
    ensures Database in cfg.enabled ==>
              |Plan(cfg)| >= 3 && Plan(cfg)[|Plan(cfg)| - 3..] == [Dump, Sync(Database), SyncMarker]
    ensures cfg.enabled == {} ==> Plan(cfg) == [SyncMarker]
  {
    var dirs := DirectorySteps(Directories, cfg);
    var db: seq<Step> := if Database in cfg.enabled then [Dump, Sync(Database)] else [];
    var p := Plan(cfg);
    assert p == (dirs + db) + [SyncMarker];
    assert SyncMarker !in dirs + db && FetchMarker !in dirs + db;
    forall j | 0 <= j < |p| - 1 ensures p[j] != SyncMarker {
      assert p[j] == (dirs + db)[j];
    }
    if Database in cfg.enabled {
      assert p == dirs + [Dump, Sync(Database), SyncMarker];
      assert p[|p| - 3..] == [Dump, Sync(Database), SyncMarker];
    }
    if cfg.enabled == {} {
      assert dirs == [];
    }
  }

  /** A category is uploaded exactly when it is enabled, and the database
      is dumped exactly when it is enabled. */
  lemma PlanUploads(cfg: Settings)
    ensures forall c :: Sync(c) in Plan(cfg) <==> c in cfg.enabled
    ensures Dump in Plan(cfg) <==> Database in cfg.enabled
  {
    var dirs := DirectorySteps(Directories, cfg);
    var db: seq<Step> := if Database in cfg.enabled then [Dump, Sync(Database)] else [];
    assert Plan(cfg) == dirs + db + [SyncMarker];
    forall s ensures s in Plan(cfg) <==> s in dirs || s in db || s == SyncMarker {
    }
    forall c ensures Sync(c) in Plan(cfg) <==> c in cfg.enabled {
      if c != Database {
        assert Directories[Index(c)] == c;
        assert Sync(c) in dirs <==> c in cfg.enabled;
      } else {
        assert Sync(c) !in dirs;
      }
    }
  }

  /** Lines 184-231: the uploads follow the category order replays,
      avatars, screenshots, profile backgrounds, database, each at most
      once. */
  lemma PlanOrder(cfg: Settings)
    ensures InCategoryOrder(Plan(cfg))
  {
    var dirs := DirectorySteps(Directories, cfg);
    var tail := PlanTail(cfg);
    DirectoriesOrdered();
    DirectoryStepsOrdered(Directories, cfg);
    DirectoryStepsBeforeDatabase(Directories, cfg);
    PlanTailUploadsDatabaseOnce(cfg);
    OrderedAppend(dirs, tail);
    assert Plan(cfg) == dirs + tail;
  }

  /** The steps after the directory loop: the dump, its upload and the date. */
  function PlanTail(cfg: Settings): seq<Step>
  {
    (if Database in cfg.enabled then [Dump, Sync(Database)] else []) + [SyncMarker]
  }

  lemma PlanTailUploadsDatabaseOnce(cfg: Settings)
    ensures forall j :: 0 <= j < |PlanTail(cfg)| && PlanTail(cfg)[j].Sync? ==> PlanTail(cfg)[j].category == Database
    ensures forall j, k :: 0 <= j < k < |PlanTail(cfg)| && PlanTail(cfg)[j].Sync? ==> !PlanTail(cfg)[k].Sync?
  {
  }

  /** The loop's directories are listed in category order. */
  lemma DirectoriesOrdered()
    ensures forall i, j :: 0 <= i < j < |Directories| ==> Index(Directories[i]) < Index(Directories[j])
  {
  }

  /** The directory loop never uploads the database. */
  lemma DirectoryStepsBeforeDatabase(dirs: seq<Category>, cfg: Settings)
    requires Database !in dirs
    ensures forall k :: 0 <= k < |DirectorySteps(dirs, cfg)| ==>
              DirectorySteps(dirs, cfg)[k].Sync? && Index(DirectorySteps(dirs, cfg)[k].category) < Index(Database)
  {
    var r := DirectorySteps(dirs, cfg);
    forall k | 0 <= k < |r| ensures r[k].Sync? && Index(r[k].category) < Index(Database) {
      assert r[k] in r;
    }
  }

  /** Directory uploads in category order, followed by steps that upload
      the database at most once, stay in category order. */
  lemma OrderedAppend(a: seq<Step>, b: seq<Step>)
    requires InCategoryOrder(a)
    requires forall i :: 0 <= i < |a| && a[i].Sync? ==> Index(a[i].category) < Index(Database)
    requires forall j :: 0 <= j < |b| && b[j].Sync? ==> b[j].category == Database
    requires forall j, k :: 0 <= j < k < |b| && b[j].Sync? ==> !b[k].Sync?
    ensures InCategoryOrder(a + b)
  {
    var p := a + b;
    forall i, j | 0 <= i < j < |p| && p[i].Sync? && p[j].Sync?
      ensures Index(p[i].category) < Index(p[j].category)
    {
      if j < |a| {
        assert p[i] == a[i] && p[j] == a[j];
      } else if i < |a| {
        assert p[i] == a[i] && p[j] == b[j - |a|];
      }
    }
  }

  lemma {:induction false} TouchAllAppend(a: seq<Step>, b: seq<Step>, cfg: Settings, files: set<string>)
    ensures TouchAll(a + b, cfg, files) == TouchAll(b, cfg, TouchAll(a, cfg, files))
    decreases |a|
  {
    if a == [] {
      assert a + b == b;
    } else {
      assert (a + b)[0] == a[0] && (a + b)[1..] == a[1..] + b;
      TouchAllAppend(a[1..], b, cfg, Touch(a[0], cfg, files));
    }
  }

  /** Directory uploads leave the local files alone. */
  lemma {:induction false} TouchAllDirectories(dirs: seq<Category>, cfg: Settings, files: set<string>)
    requires Database !in dirs
    ensures TouchAll(DirectorySteps(dirs, cfg), cfg, files) == files
    decreases |dirs|
  {
    if dirs != [] {
      assert Database !in dirs[1..];
      TouchAllDirectories(dirs[1..], cfg, files);
      var rest := DirectorySteps(dirs[1..], cfg);
      if dirs[0] in cfg.enabled {
        var s := [Sync(dirs[0])] + rest;
        assert s[0] == Sync(dirs[0]) && s[1..] == rest;
      }
    }
  }

  /** Lines 171-183: the progress message starts from the downloaded date,
      or "Never" when the download left no file. */
  function Opening(world: World): (m: Message)
    ensures Keys(m.doneWhat) == InitialKeys && Standard(m.doneWhat)
    ensures forall i :: 0 <= i < |m.doneWhat| ==> !m.doneWhat[i].done
    ensures m.latestSync == if world.fetched.Some? then world.fetched.value else NeverSynced
    ensures m.messageId.Some? <==>
              world.chat.Some? && world.chat.value.status == 200 && world.chat.value.ok
              && world.chat.value.messageId.Some?
  {
    New(world.fetched.GetOr(NeverSynced), world.chat)
  }

  /** The text of the first chat post: `telegram_notify` with an empty
      prefix puts a space before the message. */
  function OpeningPost(world: World, cfg: Settings): (r: string)
    ensures |r| >= 1 && r[..1] == " " && r[1..] == Shown(Opening(world), cfg)
  {
    " " + Shown(Opening(world), cfg)
  }

  /** The state once the date of the previous sync has been downloaded
      and the progress message posted. */
  function Start(world: World, cfg: Settings, files: set<string>): (st: State)
    ensures Valid(st) && st.msg == Opening(world) && st.shown == []
    ensures st.ran == [FetchMarker] && st.files == files - {FetchedMarker}
  {
    State(Opening(world), [FetchMarker], [], Touch(FetchMarker, cfg, files))
  }

  /** The whole transfer phase, from the endpoint on: download the date of
      the previous sync, post the progress message, then run the plan. */
  function Run(world: World, cfg: Settings, files: set<string>): (r: Outcome)
    ensures Valid(r.state)
    ensures r.state.ran != [] && r.state.ran[0] == FetchMarker
  {
    PlanShape(cfg);
    var st := Start(world, cfg, files);
    ExecSucceeds(Plan(cfg), world, cfg, st);
    ExecStops(Plan(cfg), world, cfg, st);
    Exec(Plan(cfg), world, cfg, st)
  }

  /** It succeeds exactly when every planned command exits with 0, and then
      every planned command has run; otherwise the first failing command
      names the error and nothing after it runs. */
  lemma RunStops(world: World, cfg: Settings, files: set<string>)
    ensures var r := Run(world, cfg, files);
            && (r.error.None? <==> forall i :: 0 <= i < |Plan(cfg)| ==> world.exit(Plan(cfg)[i]) == 0)
            && (r.error.None? ==> r.state.ran == [FetchMarker] + Plan(cfg))
            && (r.error.Some? ==>
                  var k := FirstFailure(Plan(cfg), world.exit);
                  && k < |Plan(cfg)| && Plan(cfg)[k] != FetchMarker
                  && r.error.value == Failure(Plan(cfg)[k], world.exit(Plan(cfg)[k]))
                  && r.state.ran == [FetchMarker] + Plan(cfg)[..k + 1])
  {
    PlanShape(cfg);
    var st := Start(world, cfg, files);
    ExecSucceeds(Plan(cfg), world, cfg, st);
    ExecStops(Plan(cfg), world, cfg, st);
  }

  /** The message keeps the id of the first post, and a failed run keeps
      the downloaded date: the date upload is the last step. */
  lemma RunKeepsDate(world: World, cfg: Settings, files: set<string>)
    ensures var r := Run(world, cfg, files);
            && r.state.msg.messageId == Opening(world).messageId
            && (r.error.Some? ==> r.state.msg.latestSync == Opening(world).latestSync)
  {
    PlanShape(cfg);
    ExecProgress(Plan(cfg), world, cfg, Start(world, cfg, files));
  }

  /** A table in which every category the plan uploads is done has every
      enabled category done. */
  lemma PlanCovers(cfg: Settings, entries: seq<Entry>)
    requires |entries| == |Categories|
    requires forall i :: 0 <= i < |Plan(cfg)| && Plan(cfg)[i].Sync? ==> entries[Index(Plan(cfg)[i].category)].done
    ensures forall c :: c in cfg.enabled ==> entries[Index(c)].done
  {
    PlanUploads(cfg);
    var p := Plan(cfg);
    forall c | c in cfg.enabled ensures entries[Index(c)].done {
      var j :| 0 <= j < |p| && p[j] == Sync(c);
    }
  }

  /** Such a table, with one item per category, makes `Done` hold. */
  lemma PlanDone(cfg: Settings, entries: seq<Entry>)
    requires Standard(entries)
    requires forall i :: 0 <= i < |Plan(cfg)| && Plan(cfg)[i].Sync? ==> entries[Index(Plan(cfg)[i].category)].done
    ensures KnownKeys(entries) && Done(entries, cfg)
  {
    StandardKnown(entries);
    PlanCovers(cfg, entries);
    forall i | 0 <= i < |entries| && Enabled(cfg, entries[i].key)
      ensures entries[i].done
    {
      EnabledItemDone(cfg, entries, i);
    }
  }

  /** One item of such a table: enabled means done. */
  lemma EnabledItemDone(cfg: Settings, entries: seq<Entry>, i: nat)
    requires Standard(entries) && i < |entries|
    requires forall c :: c in cfg.enabled ==> entries[Index(c)].done
    ensures KnownKeys(entries)
    ensures Enabled(cfg, entries[i].key) ==> entries[i].done
  {
    StandardEnabled(entries, cfg, i);
    var c := Categories[i];
    assert Index(c) == i;
  }

  /** A successful run leaves every enabled category done and the new date
      in the message; its last message is shown, and the intended text of
      it announces success too. */
  lemma RunCompletes(world: World, cfg: Settings, files: set<string>)
    ensures var r := Run(world, cfg, files);
            r.error.None? ==>
              && KnownKeys(r.state.msg.doneWhat)
              && Done(r.state.msg.doneWhat, cfg)
              && r.state.msg.latestSync == world.now
              && r.state.shown != [] && r.state.shown[|r.state.shown| - 1] == r.state.msg
              && Header(true) <= Render(r.state.msg, cfg)
  {
    PlanShape(cfg);
    var st := Start(world, cfg, files);
    var p := Plan(cfg);
    ExecProgress(p, world, cfg, st);
    ExecShowsCurrent(p, world, cfg, st);
    ExecShows(p, world, cfg, st);
    var r := Run(world, cfg, files);
    if r.error.None? {
      assert SyncMarker in p by {
        assert p[|p| - 1] == SyncMarker;
      }
      PlanDone(cfg, r.state.msg.doneWhat);
      RenderReportsDone(r.state.msg, cfg);
    }
  }

  /** The plan's steps, once all done, leave the date file and no
      temporary file behind. */
  lemma PlanFiles(cfg: Settings, files: set<string>)
    requires FetchedMarker !in files
    ensures var f := TouchAll(Plan(cfg), cfg, files);
            && FetchedMarker !in f && MarkerFile in f
            && (Database in cfg.enabled ==> DumpFile !in f && ArchiveFile !in f)
  {
    var dirs := DirectorySteps(Directories, cfg);
    TouchAllDirectories(Directories, cfg, files);
    if Database in cfg.enabled {
      assert Plan(cfg) == dirs + [Dump, Sync(Database), SyncMarker];
      TouchAllAppend(dirs, [Dump, Sync(Database), SyncMarker], cfg, files);
    } else {
      assert Plan(cfg) == dirs + [SyncMarker];
      TouchAllAppend(dirs, [SyncMarker], cfg, files);
    }
  }

  /** A successful run leaves the date file and no temporary file behind. */
  lemma RunCleansUp(world: World, cfg: Settings, files: set<string>)
    ensures var r := Run(world, cfg, files);
            r.error.None? ==>
              && FetchedMarker !in r.state.files && MarkerFile in r.state.files
              && (Database in cfg.enabled ==> DumpFile !in r.state.files && ArchiveFile !in r.state.files)
  {
    PlanShape(cfg);
    var st := Start(world, cfg, files);
    ExecFiles(Plan(cfg), world, cfg, st);
    PlanFiles(cfg, st.files);
  }

}
