/** One backup run of oiseau.py, lines 33-269: log in, list the archives,
    resolve the bucket, find its SSH endpoint, then run the transfers.
    The API's answers, each step's exit code and the chat service's
    answers are inputs; the run hands back the requests it sent, the shell
    lines it ran, and how it ended. */
module Oiseau {
  import opened Wrappers
  import opened Records
  import opened Errors
  import opened Config
  import Api
  import Archives
  import Credentials
  import Status
  import Transfer

  const UserHandler: string := "api/v1/user"
  const ArchivesHandler: string := "api/v1/storage/c14/archive"

  /** What the provider answers to each request the script may send.  The
      body of `api/v1/user` is reduced to its truth value: `if not
      logged_in` rejects an empty answer as well as `False`. */
  datatype Service = Service(
    user: Api.Reply<bool>,
    archives: Api.Reply<seq<Archive>>,
    bucket: Api.Reply<Bucket>,
    locations: Api.Reply<seq<Location>>,
    keys: Api.Reply<seq<SshKey>>,
    unarchive: Api.Reply<()>)

  /** The API requests sent, the endpoint found, the shell lines run, the
      transfer phase's end state when it was reached, and how the run ended. */
  datatype Report = Report(
    requests: seq<Archives.Request>,
    endpoint: Option<Credentials.Endpoint>,
    commands: seq<string>,
    transfer: Option<Transfer.Outcome>,
    ending: Verdict<()>)

  /** Lines 35-38: `auth_valid()` gives the user record, or `False` when
      the request failed. */
  predicate LoggedIn(cfg: Settings, svc: Service)
  {
    match Api.AuthValid(cfg.apiKey, svc.user)
    case Some(body) => body
    case None => false
  }

  /** The two requests every logged-in run starts with. */
  function FirstRequests(): seq<Archives.Request>
  {
    [Archives.Request(Api.Get, UserHandler, None), Archives.Request(Api.Get, ArchivesHandler, None)]
  }

  /** The API phase: the requests sent and the SSH endpoint, or the reason
      the run ends before any transfer. */
  datatype Access = Access(requests: seq<Archives.Request>, verdict: Verdict<Credentials.Endpoint>)

  /** Lines 35-167: from the API key to the SSH endpoint. */
  function Reach(cfg: Settings, svc: Service): (a: Access)
    ensures a.requests != [] && a.requests[0] == Archives.Request(Api.Get, UserHandler, None)
    ensures LoggedIn(cfg, svc) ==>
              |a.requests| >= 2 && a.requests[1] == Archives.Request(Api.Get, ArchivesHandler, None)
    ensures !LoggedIn(cfg, svc) <==> a.verdict == Fail(LoginFailed) && |a.requests| == 1
  {
    if !LoggedIn(cfg, svc) then
      Access(FirstRequests()[..1], Fail(LoginFailed))
    else if !Api.IsSuccess(svc.archives.status) then
      Access(FirstRequests(), Propagate(svc.archives.status))
    else
      var res := Archives.Resolve(svc.archives.body, cfg.syncName, cfg.allowedSshKeys,
                                  svc.bucket, svc.locations, svc.keys, svc.unarchive);
      var sent := FirstRequests() + res.requests;
      assert sent[..2] == FirstRequests();
      Access(sent, Proceed(res.verdict))
  }

  /** Lines 145-167: a bucket is looked up for its SSH endpoint; an error
      ends the run as it is. */
  function Proceed(v: Verdict<Bucket>): (r: Verdict<Credentials.Endpoint>)
    ensures r.Ready? <==> v.Ready? && Credentials.Connect(v.value).Ready?
    ensures v.Ready? ==> r == Credentials.Connect(v.value)
    ensures v.Fail? ==> r == Fail(v.error)
    ensures v.Propagate? ==> r == Propagate(v.status)
  {
    match v
    case Fail(e) => Fail(e)
    case Propagate(s) => Propagate(s)
    case Ready(bucket) => Credentials.Connect(bucket)
  }

  /** A verdict that is not `Ready` as the end of the whole run. */
  function Stop(v: Verdict<Credentials.Endpoint>): (r: Verdict<()>)
    requires !v.Ready?
    ensures r.Fail? <==> v.Fail?
    ensures r.Fail? ==> r.error == v.error
    ensures r.Propagate? ==> r.status == v.status
  {
    if v.Fail? then Fail(v.error) else Propagate(v.status)
  }

  /** The run as a whole: the transfers start exactly when the API phase
      found an endpoint, and their first failure is the run's error. */
  function Backup(cfg: Settings, svc: Service, world: Transfer.World, files: set<string>): (r: Report)
    ensures r.requests == Reach(cfg, svc).requests
    ensures r.transfer.Some? <==> Reach(cfg, svc).verdict.Ready?
    ensures r.transfer.None? ==> r.commands == [] && r.ending == Stop(Reach(cfg, svc).verdict)
    ensures r.transfer.Some? ==>
              && r.endpoint == Some(Reach(cfg, svc).verdict.value)
              && r.transfer.value == Transfer.Run(world, cfg, files)
              && r.commands == Transfer.Lines(r.transfer.value.state.ran, cfg, r.endpoint.value)
              && r.ending == if r.transfer.value.error.None? then Ready(()) else Fail(r.transfer.value.error.value)
  {
    var a := Reach(cfg, svc);
    if a.verdict.Ready? then
      var o := Transfer.Run(world, cfg, files);
      var ending: Verdict<()> := if o.error.None? then Ready(()) else Fail(o.error.value);
      Report(a.requests, Some(a.verdict.value), Transfer.Lines(o.state.ran, cfg, a.verdict.value), Some(o), ending)
    else
      Report(a.requests, None, [], None, Stop(a.verdict))
  }

  /** The process exit status: `exit(-1)` after a `CriticalError`, read by
      the shell as 255; any other end, including an API error that escapes
      to the last `except`, leaves with 0. */
  function ExitStatus(ending: Verdict<()>): (code: int)
    ensures 0 <= code < 256
    ensures code != 0 <==> ending.Fail?
    ensures ending.Fail? ==> code == 255
  {
    if ending.Fail? then (-1) % 256 else 0
  }

  /** A rejected key ends the run after its first request, with exit
      status 255 and no transfer. */
  lemma LoginFirst(cfg: Settings, svc: Service, world: Transfer.World, files: set<string>)
    requires !LoggedIn(cfg, svc)
    ensures var r := Backup(cfg, svc, world, files);
            && r.requests == [Archives.Request(Api.Get, UserHandler, None)]
            && r.ending == Fail(LoginFailed) && ExitStatus(r.ending) == 255
            && r.transfer.None? && r.commands == []
  {
    var a := Reach(cfg, svc);
    assert a.requests == [a.requests[0]];
  }

  /** `LoggedIn` holds exactly when `GET api/v1/user` answered 2xx with a
      non-empty user record. */
  lemma LoggedInMeans(cfg: Settings, svc: Service)
    ensures LoggedIn(cfg, svc) <==> Api.IsSuccess(svc.user.status) && svc.user.body
  {
  }

  /** The endpoint is found exactly when the key is accepted, the archive
      list is read, the resolution hands back the bucket, and that bucket
      has a usable `ssh` credential. */
  lemma ReachReady(cfg: Settings, svc: Service)
    ensures var a := Reach(cfg, svc);
            a.verdict.Ready? <==>
              && LoggedIn(cfg, svc) && Api.IsSuccess(svc.archives.status)
              && Archives.Resolve(svc.archives.body, cfg.syncName, cfg.allowedSshKeys,
                                  svc.bucket, svc.locations, svc.keys, svc.unarchive).verdict == Ready(svc.bucket.body)
              && Credentials.Connect(svc.bucket.body).Ready?
    ensures var a := Reach(cfg, svc);
            a.verdict.Ready? ==> a.verdict == Credentials.Connect(svc.bucket.body)
  {
    if LoggedIn(cfg, svc) && Api.IsSuccess(svc.archives.status) {
      var res := Archives.Resolve(svc.archives.body, cfg.syncName, cfg.allowedSshKeys,
                                  svc.bucket, svc.locations, svc.keys, svc.unarchive);
      assert Reach(cfg, svc).verdict == Proceed(res.verdict);
    }
  }

  /** An endpoint is found only when every archive with the configured
      name is active and the last request was the lookup of the newest
      one's bucket, which answered 2xx. */
  lemma ReachNeedsActiveBucket(cfg: Settings, svc: Service)
    ensures var a := Reach(cfg, svc);
            a.verdict.Ready? ==>
              && Api.IsSuccess(svc.bucket.status)
              && Archives.Matching(svc.archives.body, cfg.syncName) != []
              && (forall x :: x in svc.archives.body && Archives.Matches(x, cfg.syncName) ==>
                                x.status == Archives.ActiveStatus)
              && a.requests[|a.requests| - 1] ==
                   Archives.Request(Api.Get, Archives.SyncArchives(svc.archives.body, cfg.syncName)[0].ref + "/bucket", None)
  {
    var a := Reach(cfg, svc);
    if a.verdict.Ready? {
      ReachReady(cfg, svc);
      var archives := svc.archives.body;
      var res := Archives.Resolve(archives, cfg.syncName, cfg.allowedSshKeys,
                                  svc.bucket, svc.locations, svc.keys, svc.unarchive);
      assert res.verdict.Ready?;
      assert a.requests == FirstRequests() + res.requests;
      Archives.ResolveReady(archives, cfg.syncName, cfg.allowedSshKeys,
                            svc.bucket, svc.locations, svc.keys, svc.unarchive);
    }
  }

  /** When the newest archive has no open bucket (404), the run never
      transfers anything. */
  lemma ArchivedMeansNoTransfer(cfg: Settings, svc: Service, world: Transfer.World, files: set<string>)
    requires svc.bucket.status == 404
    ensures var r := Backup(cfg, svc, world, files);
            r.transfer.None? && r.commands == [] && !r.ending.Ready?
  {
    ReachReady(cfg, svc);
    Archives.ResolveNotFoundNeverReady(svc.archives.body, cfg.syncName, cfg.allowedSshKeys,
                                       svc.bucket, svc.locations, svc.keys, svc.unarchive);
  }

  /** A run that reaches the transfers succeeds exactly when every planned
      command exits with 0; it has then run them all, left every enabled
      category done and the new date in the message, and exits with 0. */
  lemma BackupSucceeds(cfg: Settings, svc: Service, world: Transfer.World, files: set<string>)
    ensures var r := Backup(cfg, svc, world, files);
            r.transfer.Some? ==>
              var o := r.transfer.value;
              var p := Transfer.Plan(cfg);
              && (r.ending.Ready? <==> forall i :: 0 <= i < |p| ==> world.exit(p[i]) == 0)
              && (r.ending.Ready? ==>
                    && r.commands == Transfer.Lines([Transfer.FetchMarker] + p, cfg, r.endpoint.value)
                    && Status.KnownKeys(o.state.msg.doneWhat)
                    && Status.Done(o.state.msg.doneWhat, cfg)
                    && o.state.msg.latestSync == world.now
                    && ExitStatus(r.ending) == 0)
  {
    var r := Backup(cfg, svc, world, files);
    if r.transfer.Some? {
      var o := Transfer.Run(world, cfg, files);
      assert r.transfer.value == o;
      Transfer.RunStops(world, cfg, files);
      Transfer.RunCompletes(world, cfg, files);
    }
  }

  /** Otherwise the first failing command names the error, nothing after
      it runs, and the run exits with 255. */
  lemma BackupFails(cfg: Settings, svc: Service, world: Transfer.World, files: set<string>)
    ensures var r := Backup(cfg, svc, world, files);
            r.transfer.Some? && !r.ending.Ready? ==>
              var p := Transfer.Plan(cfg);
              var k := Transfer.FirstFailure(p, world.exit);
              && k < |p| && p[k] != Transfer.FetchMarker
              && r.ending == Fail(Transfer.Failure(p[k], world.exit(p[k])))
              && r.commands == Transfer.Lines([Transfer.FetchMarker] + p[..k + 1], cfg, r.endpoint.value)
              && ExitStatus(r.ending) == 255
  {
    var r := Backup(cfg, svc, world, files);
    if r.transfer.Some? && !r.ending.Ready? {
      var o := Transfer.Run(world, cfg, files);
      assert r.transfer.value == o;
      Transfer.RunStops(world, cfg, files);
      assert o.error.Some?;
      var p := Transfer.Plan(cfg);
      var k := Transfer.FirstFailure(p, world.exit);
      assert r.ending == Fail(o.error.value);
      assert o.error.value == Transfer.Failure(p[k], world.exit(p[k]));
      assert o.state.ran == [Transfer.FetchMarker] + p[..k + 1];
      assert r.commands == Transfer.Lines(o.state.ran, cfg, r.endpoint.value);
    }
  }
}
