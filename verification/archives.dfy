/** Archive resolution, oiseau.py lines 41-143: pick the newest archive with
    the configured name, insist that every archive with that name is
    active, request deletion of the older ones, and look up the temporary
    bucket; when there is none, request an unarchive and stop.  Every API
    answer the script would wait for is an input `Reply`; the requests the
    script sends are returned in order. */
module Archives {
  import opened Wrappers
  import opened Text
  import opened Records
  import opened Errors
  import Api
  import Sorting

  const ActiveStatus: string := "active"

  /** The JSON body of the unarchive request. */
  datatype UnarchiveBody = UnarchiveBody(locationId: string, protocols: seq<string>, sshKeys: seq<string>)

  /** A call of `client.request(handler, method, json)`. */
  datatype Request = Request(verb: Api.Method, handler: string, json: Option<UnarchiveBody>)

  datatype Resolution = Resolution(verdict: Verdict<Bucket>, requests: seq<Request>)

  /** `x["name"].lower() == config["C14_SYNC_NAME"]`: only the archive's
      name is lower-cased. */
  predicate Matches(a: Archive, syncName: string)
  {
    Lower(a.name) == syncName
  }

  /** The list comprehension of line 47. */
  function Matching(archives: seq<Archive>, syncName: string): (r: seq<Archive>)
    ensures |r| <= |archives|
    ensures forall a :: a in r <==> a in archives && Matches(a, syncName)
    decreases |archives|
  {
    if archives == [] then []
    else if Matches(archives[0], syncName) then [archives[0]] + Matching(archives[1..], syncName)
    else Matching(archives[1..], syncName)
  }

  /** The filter keeps the provider's order and every copy: filtering a
      concatenation filters each part in turn. */
  lemma {:induction false} MatchingAppend(a: seq<Archive>, b: seq<Archive>, syncName: string)
    ensures Matching(a + b, syncName) == Matching(a, syncName) + Matching(b, syncName)
    decreases |a|
  {
    if a == [] {
      assert a + b == b;
    } else {
      assert (a + b)[0] == a[0] && (a + b)[1..] == a[1..] + b;
      MatchingAppend(a[1..], b, syncName);
    }
  }

  /** A single archive is kept exactly when it matches. */
  lemma MatchingOne(x: Archive, syncName: string)
    ensures Matching([x], syncName) == if Matches(x, syncName) then [x] else []
  {
    assert [x][1..] == [];
  }

  /** A configured name with an upper-case letter matches no archive at all. */
  lemma {:induction false} UpperCaseNameMatchesNothing(archives: seq<Archive>, syncName: string)
    requires !IsLower(syncName)
    ensures Matching(archives, syncName) == []
    decreases |archives|
  {
    if archives != [] {
      assert IsLower(Lower(archives[0].name));
      UpperCaseNameMatchesNothing(archives[1..], syncName);
    }
  }

  function Created(a: Archive): int { a.created }

  /** The matching archives, newest first. */
  function SyncArchives(archives: seq<Archive>, syncName: string): seq<Archive>
  {
    Sorting.SortDesc(Matching(archives, syncName), Created)
  }

  /** The archive kept is the newest one with the configured name; of several
      equally new ones, the first the provider listed (`WithKey` lists the
      archives of one creation time in provider order). */
  lemma CurrentIsNewest(archives: seq<Archive>, syncName: string)
    requires SyncArchives(archives, syncName) != []
    ensures var cur := SyncArchives(archives, syncName)[0];
            && cur in archives && Matches(cur, syncName)
            && (forall a :: a in archives && Matches(a, syncName) ==> a.created <= cur.created)
            && Sorting.WithKey(Matching(archives, syncName), Created, cur.created) != []
            && Sorting.WithKey(Matching(archives, syncName), Created, cur.created)[0] == cur
  {
    var m := Matching(archives, syncName);
    var sync := Sorting.SortDesc(m, Created);
    var cur := sync[0];
    assert sync[0] in multiset(sync);
    Sorting.SortDescHead(m, Created);
    forall a | a in archives && Matches(a, syncName) ensures a.created <= cur.created {
      var j :| 0 <= j < |m| && m[j] == a;
      assert Created(m[j]) <= Created(cur);
    }
    assert Sorting.WithKey(sync, Created, cur.created) == [cur] + Sorting.WithKey(sync[1..], Created, cur.created);
    Sorting.SortDescStable(m, Created, cur.created);
  }

  /** The status of the first archive, in sorted order, that is not active. */
  function FirstInactive(sync: seq<Archive>): (r: Option<string>)
    ensures r.None? <==> forall i :: 0 <= i < |sync| ==> sync[i].status == ActiveStatus
    ensures r.Some? ==> exists i :: 0 <= i < |sync| && sync[i].status == r.value && r.value != ActiveStatus
                                    && forall j :: 0 <= j < i ==> sync[j].status == ActiveStatus
    decreases |sync|
  {
    if sync == [] then None
    else if sync[0].status != ActiveStatus then Some(sync[0].status)
    else
      var r := FirstInactive(sync[1..]);
      if r.Some? then
        var i :| 0 <= i < |sync[1..]| && sync[1..][i].status == r.value && r.value != ActiveStatus
                 && forall j :: 0 <= j < i ==> sync[1..][j].status == ActiveStatus;
        assert sync[i + 1] == sync[1..][i];
        assert forall j :: 1 <= j <= i ==> sync[j] == sync[1..][j - 1];
        r
      else r
  }

  /** One DELETE per outdated archive, in order; the answers are not looked at. */
  function DeleteOutdated(outdated: seq<Archive>): (r: seq<Request>)
    ensures |r| == |outdated|
    ensures forall i :: 0 <= i < |r| ==> r[i] == Request(Api.Delete, outdated[i].ref, None)
  {
    seq(|outdated|, i requires 0 <= i < |outdated| => Request(Api.Delete, outdated[i].ref, None))
  }

  function LowerAll(names: seq<string>): (r: seq<string>)
    ensures |r| == |names| && forall i :: 0 <= i < |r| ==> r[i] == Lower(names[i])
  {
    seq(|names|, i requires 0 <= i < |names| => Lower(names[i]))
  }

  predicate KeyAllowed(k: SshKey, allowed: seq<string>)
  {
    Lower(k.description) in LowerAll(allowed)
  }

  /** `valid_ssh_keys`, lines 110-114. */
  function ValidSshKeys(keys: seq<SshKey>, allowed: seq<string>): (r: seq<string>)
    ensures |r| <= |keys|
    ensures forall u :: u in r <==> exists k :: k in keys && k.uuidRef == u && KeyAllowed(k, allowed)
    decreases |keys|
  {
    if keys == [] then []
    else
      var rest := ValidSshKeys(keys[1..], allowed);
      assert forall k :: k in keys <==> k == keys[0] || k in keys[1..];
      if KeyAllowed(keys[0], allowed) then [keys[0].uuidRef] + rest else rest
  }

  /** The valid keys keep the account's key order: the list for a
      concatenation is the concatenation of the lists. */
  lemma {:induction false} ValidSshKeysAppend(k1: seq<SshKey>, k2: seq<SshKey>, allowed: seq<string>)
    ensures ValidSshKeys(k1 + k2, allowed) == ValidSshKeys(k1, allowed) + ValidSshKeys(k2, allowed)
    decreases |k1|
  {
    if k1 == [] {
      assert k1 + k2 == k2;
    } else {
      assert (k1 + k2)[0] == k1[0] && (k1 + k2)[1..] == k1[1..] + k2;
      ValidSshKeysAppend(k1[1..], k2, allowed);
    }
  }

  /** Matching is case-insensitive on both sides: lower-casing the
      configured list changes nothing. */
  lemma ValidSshKeysIgnoresCase(keys: seq<SshKey>, allowed: seq<string>)
    ensures ValidSshKeys(keys, LowerAll(allowed)) == ValidSshKeys(keys, allowed)
  {
    assert LowerAll(LowerAll(allowed)) == LowerAll(allowed);
    SameAllowedSameKeys(keys, LowerAll(allowed), allowed);
  }

  lemma {:induction false} SameAllowedSameKeys(keys: seq<SshKey>, a: seq<string>, b: seq<string>)
    requires LowerAll(a) == LowerAll(b)
    ensures ValidSshKeys(keys, a) == ValidSshKeys(keys, b)
    decreases |keys|
  {
    if keys != [] {
      SameAllowedSameKeys(keys[1..], a, b);
    }
  }

  /** Lines 99-143, reached when the bucket lookup answered 404: it ends the
      run whatever happens. */
  function Unarchive(current: Archive, allowed: seq<string>, locations: Api.Reply<seq<Location>>,
                     keys: Api.Reply<seq<SshKey>>, unarchive: Api.Reply<()>): (r: Resolution)
    ensures !r.verdict.Ready?
    ensures 1 <= |r.requests| <= 3
    ensures r.requests[0] == Request(Api.Get, current.ref + "/location", None)
    ensures |r.requests| == 3 ==>
              (&& locations.body != []
               && r.requests[2] == Request(Api.Post, current.ref + "/unarchive",
                    Some(UnarchiveBody(locations.body[0].uuidRef, ["ssh", "ftp"], ValidSshKeys(keys.body, allowed)))))
    ensures |r.requests| == 3 <==>
              Api.IsSuccess(locations.status) && locations.body != []
              && Api.IsSuccess(keys.status) && ValidSshKeys(keys.body, allowed) != []
    ensures |r.requests| == 1 <==> !Api.IsSuccess(locations.status) || locations.body == []
    ensures !Api.IsSuccess(locations.status) ==> r.verdict == Propagate(locations.status)
    ensures Api.IsSuccess(locations.status) && locations.body == [] ==> r.verdict == Fail(NoLocations(current.uuidRef))
    ensures |r.requests| >= 2 ==> r.requests[1] == Request(Api.Get, "api/v1/user/key/ssh", None)
    ensures |r.requests| == 2 ==>
              (&& (!Api.IsSuccess(keys.status) ==> r.verdict == Propagate(keys.status))
               && (Api.IsSuccess(keys.status) ==> ValidSshKeys(keys.body, allowed) == [] && r.verdict == Fail(NoValidSshKeys)))
    ensures |r.requests| == 3 ==>
              (&& (Api.IsSuccess(unarchive.status) ==> r.verdict == Fail(UnarchiveStarted(current.uuidRef)))
               && (unarchive.status == 409 ==> r.verdict == Fail(UnarchiveAlreadyRequested(current.uuidRef)))
               && (!Api.IsSuccess(unarchive.status) && unarchive.status != 409 ==>
                     r.verdict == Propagate(unarchive.status)))
  {
    var askLocations := [Request(Api.Get, current.ref + "/location", None)];
    if !Api.IsSuccess(locations.status) then Resolution(Propagate(locations.status), askLocations)
    else if locations.body == [] then Resolution(Fail(NoLocations(current.uuidRef)), askLocations)
    else
      var askKeys := askLocations + [Request(Api.Get, "api/v1/user/key/ssh", None)];
      if !Api.IsSuccess(keys.status) then Resolution(Propagate(keys.status), askKeys)
      else
        var valid := ValidSshKeys(keys.body, allowed);
        if valid == [] then Resolution(Fail(NoValidSshKeys), askKeys)
        else
          var body := UnarchiveBody(locations.body[0].uuidRef, ["ssh", "ftp"], valid);
          var all := askKeys + [Request(Api.Post, current.ref + "/unarchive", Some(body))];
          if Api.IsSuccess(unarchive.status) then Resolution(Fail(UnarchiveStarted(current.uuidRef)), all)
          else if unarchive.status == 409 then Resolution(Fail(UnarchiveAlreadyRequested(current.uuidRef)), all)
          else Resolution(Propagate(unarchive.status), all)
  }

  /** Lines 41-143: from the archive list to a bucket, or to the reason there is none. */
  function Resolve(archives: seq<Archive>, syncName: string, allowed: seq<string>,
                   bucket: Api.Reply<Bucket>, locations: Api.Reply<seq<Location>>,
                   keys: Api.Reply<seq<SshKey>>, unarchive: Api.Reply<()>): (r: Resolution)
    ensures r.verdict.Ready? ==> Api.IsSuccess(bucket.status) && r.verdict.value == bucket.body
  {
    if archives == [] then Resolution(Fail(NoArchives), [])
    else
      var sync := SyncArchives(archives, syncName);
      if sync == [] then Resolution(Fail(NoMatchingArchives), [])
      else match FirstInactive(sync)
        case Some(status) => Resolution(Fail(NotAllActive(status)), [])
        case None =>
          var current := sync[0];
          var sent := DeleteOutdated(sync[1..]) + [Request(Api.Get, current.ref + "/bucket", None)];
          if Api.IsSuccess(bucket.status) then Resolution(Ready(bucket.body), sent)
          else if bucket.status != 404 then Resolution(Propagate(bucket.status), sent)
          else
            var u := Unarchive(current, allowed, locations, keys, unarchive);
            Resolution(u.verdict, sent + u.requests)
  }

  /** Errors found before any request: no archives, none with the name, or
      one with the name that is not active. */
  lemma ResolveEarlyErrors(archives: seq<Archive>, syncName: string, allowed: seq<string>,
                           bucket: Api.Reply<Bucket>, locations: Api.Reply<seq<Location>>,
                           keys: Api.Reply<seq<SshKey>>, unarchive: Api.Reply<()>)
    ensures var r := Resolve(archives, syncName, allowed, bucket, locations, keys, unarchive);
            && (archives == [] ==> r == Resolution(Fail(NoArchives), []))
            && (archives != [] && Matching(archives, syncName) == [] ==>
                  r == Resolution(Fail(NoMatchingArchives), []))
            && ((exists a :: a in archives && Matches(a, syncName) && a.status != ActiveStatus) ==>
                  r.verdict.Fail? && r.verdict.error.NotAllActive? && r.requests == [])
  {
    var m := Matching(archives, syncName);
    var sync := SyncArchives(archives, syncName);
    assert |m| == |multiset(m)| == |multiset(sync)| == |sync|;
    if a :| a in archives && Matches(a, syncName) && a.status != ActiveStatus {
      assert a in multiset(m);
      assert a in multiset(sync);
      var i :| 0 <= i < |sync| && sync[i] == a;
    }
  }

  /** When every archive with the name is active, so is every archive of the sorted list. */
  lemma SyncAllActive(archives: seq<Archive>, syncName: string)
    requires Matching(archives, syncName) != []
    requires forall a :: a in archives && Matches(a, syncName) ==> a.status == ActiveStatus
    ensures SyncArchives(archives, syncName) != []
    ensures FirstInactive(SyncArchives(archives, syncName)).None?
  {
    var m := Matching(archives, syncName);
    var sync := SyncArchives(archives, syncName);
    assert |m| == |multiset(m)| == |multiset(sync)| == |sync|;
    forall i | 0 <= i < |sync| ensures sync[i].status == ActiveStatus {
      assert sync[i] in multiset(sync);
      assert sync[i] in m;
    }
  }

  /** Once every archive with the name is active, the script requests the
      deletion of every archive but the newest, in sorted order, then looks
      up the newest one's bucket, and the bucket answer decides the rest: a
      bucket means go on, 404 means unarchive (which never goes on), any
      other error escapes.  A failed deletion never stops the run. */
  lemma ResolveActive(archives: seq<Archive>, syncName: string, allowed: seq<string>,
                      bucket: Api.Reply<Bucket>, locations: Api.Reply<seq<Location>>,
                      keys: Api.Reply<seq<SshKey>>, unarchive: Api.Reply<()>)
    requires Matching(archives, syncName) != []
    requires forall a :: a in archives && Matches(a, syncName) ==> a.status == ActiveStatus
    ensures var r := Resolve(archives, syncName, allowed, bucket, locations, keys, unarchive);
            var sync := SyncArchives(archives, syncName);
            var sent := DeleteOutdated(sync[1..]) + [Request(Api.Get, sync[0].ref + "/bucket", None)];
            && (Api.IsSuccess(bucket.status) ==> r == Resolution(Ready(bucket.body), sent))
            && (!Api.IsSuccess(bucket.status) && bucket.status != 404 ==>
                  r == Resolution(Propagate(bucket.status), sent))
            && (bucket.status == 404 ==>
                  r == Resolution(Unarchive(sync[0], allowed, locations, keys, unarchive).verdict,
                                  sent + Unarchive(sync[0], allowed, locations, keys, unarchive).requests))
  {
    assert archives != [] by {
      assert |Matching(archives, syncName)| <= |archives|;
    }
    SyncAllActive(archives, syncName);
  }

  /** The bucket lookup answering 404 never lets the run go on to syncing. */
  lemma ResolveNotFoundNeverReady(archives: seq<Archive>, syncName: string, allowed: seq<string>,
                                  bucket: Api.Reply<Bucket>, locations: Api.Reply<seq<Location>>,
                                  keys: Api.Reply<seq<SshKey>>, unarchive: Api.Reply<()>)
    requires bucket.status == 404
    ensures !Resolve(archives, syncName, allowed, bucket, locations, keys, unarchive).verdict.Ready?
  {
  }

  /** Going on to the transfers needs every archive with the name active
      and a 2xx answer to the newest one's bucket lookup, which is then the
      last request sent. */
  lemma ResolveReady(archives: seq<Archive>, syncName: string, allowed: seq<string>,
                     bucket: Api.Reply<Bucket>, locations: Api.Reply<seq<Location>>,
                     keys: Api.Reply<seq<SshKey>>, unarchive: Api.Reply<()>)
    requires Resolve(archives, syncName, allowed, bucket, locations, keys, unarchive).verdict.Ready?
    ensures var r := Resolve(archives, syncName, allowed, bucket, locations, keys, unarchive);
            && Api.IsSuccess(bucket.status)
            && Matching(archives, syncName) != []
            && (forall a :: a in archives && Matches(a, syncName) ==> a.status == ActiveStatus)
            && r.requests != []
            && r.requests[|r.requests| - 1] == Request(Api.Get, SyncArchives(archives, syncName)[0].ref + "/bucket", None)
  {
    ResolveEarlyErrors(archives, syncName, allowed, bucket, locations, keys, unarchive);
    assert Matching(archives, syncName) != [];
    assert forall a :: a in archives && Matches(a, syncName) ==> a.status == ActiveStatus;
    ResolveActive(archives, syncName, allowed, bucket, locations, keys, unarchive);
    assert bucket.status != 404 by {
      if bucket.status == 404 {
        ResolveNotFoundNeverReady(archives, syncName, allowed, bucket, locations, keys, unarchive);
      }
    }
  }
}
