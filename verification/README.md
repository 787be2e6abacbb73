# oiseau, modelled in Dafny

oiseau is a backup script for a C14 cold-storage account at online.net.
One run logs in to the online.net API, lists the C14 archives, keeps the
newest archive carrying the configured name, and insists that every archive
with that name is active. It asks for the deletion of the older copies and
looks up the temporary bucket of the newest one. When there is no bucket it
requests an unarchive and stops. Otherwise it takes the SSH endpoint from
the bucket's credentials. Over SSH it downloads the date of the previous
sync and uploads each enabled directory with `rsync`. It then dumps the
database, optionally compresses it, and uploads it. Last, it uploads the
new sync date. A chat message shows the progress, and each completed
category edits it.

The model keeps this as pure functions over immutable values:

- The API's answers are inputs (`Api.Reply`).
- Each shell command's exit code is an input (`Transfer.World.exit`).
- The contents of the downloaded date file are an input.
- The chat service's answer to the first post is an input.
- The clock is an input.

The run returns these values:

- the API requests it sent;
- the shell lines it ran;
- the local files it left;
- each state of the progress message it showed;
- how it ended.

| module | file | what it covers |
|---|---|---|
| `Text` | text.dfy | `lower`, `upper`, `capitalize`, `replace`, `lstrip`, `rstrip`, `split(d, 1)`, `join` on ASCII text |
| `Template`, `Commands` | template.dfy, commands.dfy | the `rsync`, `scp` and `mysqldump` command lines, and reading their fields back |
| `Api` | api.dfy | the REST client: URL, method table, bearer header, 2xx check, `auth_valid` |
| `Config` | config.dfy | the settings, the five categories, the `SYNC_*` flags |
| `Status` | status.dfy | `TelegramStatusMessage`, its text and `done`, and `sync_done` |
| `Records`, `Errors` | records.dfy | the JSON records read, and how a run ends |
| `Sorting` | sorting.dfy | the stable descending sort of the archives by creation date |
| `Archives` | archives.dfy | archive resolution up to the bucket, including unarchiving |
| `Credentials` | credentials.dfy | the SSH endpoint of a bucket |
| `Transfer` | transfer.dfy | the transfer phase: plan, per-step effects, first-failure stop, progress message, temporary files |
| `Oiseau` | oiseau.dfy | one whole run and its exit status |

### Exit statuses and error handling

- **Unarchive cases.** "Unarchive started", "unarchive already requested" and "archive not active" raise `CriticalError`. The process therefore exits with status 255 (`exit(-1)`), although nothing went wrong with the account.
- **Unexpected exceptions.** An `OnlineApiError` that escapes, or any other unexpected exception, is caught by the last `except`. That handler does not call `exit`, so the process ends with status 0.
- **Delete requests.** Every failed deletion of an outdated archive is ignored, whatever its status.
- **Two slips modelled as written.** The run uses the script's own SSH URI split and the script's own progress text. Both are described under Findings. Next to each sits the evidently intended version, with its property proved: `Credentials.ConnectIntended` and `Status.Render`.

## Model

| member | source | states |
|---|---|---|
| Text.Lower | utils.py:129 | `lower()` keeps the length and maps each character on its own: an ASCII upper-case letter to its lower-case partner, anything else to itself; the result has no upper-case letter, and lower-case text is unchanged |
| Text.Upper | oiseau.py:185 | `upper()` keeps the length and maps each character on its own: an ASCII lower-case letter to its upper-case partner, anything else to itself; no lower-case letter remains |
| Text.LowerUpper | utils.py:127-130 | lower-casing undoes upper-casing on lower-case text, so `sync_done(d.upper())` marks `d` |
| Text.Capitalize | utils.py:114 | the first character is upper-cased and the rest lower-cased, at the same length |
| Text.ReplaceChar | utils.py:114 | every occurrence of the old character is replaced, every other character is kept, and with two different characters none of the old one remains |
| Text.LStrip | online/__init__.py:26 | the result is a suffix of the input; everything removed is in the character set; the result does not start with one |
| Text.LStripStops | oiseau.py:161 | `lstrip` leaves alone a string whose first character is not in the set |
| Text.LStripShortens | oiseau.py:161 | `lstrip` removes something from a string whose first character is in the set |
| Text.RStrip | online/__init__.py:26 | the result is a prefix of the input; everything removed is in the set; the result does not end with one |
| Text.RemovePrefix | oiseau.py:161 | with the prefix present, prefix plus result is the input; otherwise the input is unchanged |
| Text.SplitOnce | oiseau.py:161 | no split exactly when the separator is absent; otherwise the input is head, separator, tail, with no separator in the head |
| Text.SplitOnceAt | oiseau.py:161 | a head without the separator is cut off exactly |
| Template.ParseFill | utils.py:9-24 | reading the holes back from a filled command template gives the arguments, when no argument holds the character that ends its hole |
| Template.FillInjective | utils.py:9-24 | two fitting argument lists give the same command line only if they are equal |
| Commands.RsyncUploadCmd | utils.py:9-15 | the upload line starts with the ssh transport and port, and ends with a quote and a space |
| Commands.RsyncUploadCmdFields | utils.py:9-15 | port, key, source and destination can be read back from the upload line |
| Commands.ScpDownloadCmd | utils.py:18-24 | the download line starts with port, key and a space |
| Commands.ScpDownloadCmdFields | utils.py:18-24 | port, key, source and local file can be read back from the download line |
| Commands.DumpCmd | oiseau.py:204-211 | the dump line starts with the quoted user and the password flag |
| Commands.DumpCmdFields | oiseau.py:204-211 | user, password, database and output file can be read back from the dump line |
| Commands.RsyncInjective | utils.py:9-15 | two uploads give the same line only if they have the same source, destination, port and key |
| Api.ParseMethod | online/__init__.py:16-24 | the method is looked up by its lower-cased name; the five names are the only ones accepted (otherwise `KeyError`) |
| Api.ParseMethodName | online/__init__.py:16-24 | every method name is accepted in lower and in upper case |
| Api.RequestUrl | online/__init__.py:26 | the URL is the base, one slash, then the handler without its leading slashes |
| Api.RequestUrlIgnoresLeadingSlash | online/__init__.py:26 | a leading slash on the handler does not change the URL |
| Api.RequestUrlPlain | online/__init__.py:26 | a handler without a leading slash is appended as is |
| Api.Classify | online/__init__.py:30-37 | success exactly on 2xx, with the body; otherwise the error carries the status |
| Api.AuthHeader | online/__init__.py:39-43 | the only header is `Authorization`, starting with `Bearer ` |
| Api.AuthHeaderCarriesKey | online/__init__.py:39-43 | the header hands the configured key back to the server |
| Api.Request | online/__init__.py:15-37 | an unknown method sends nothing; otherwise the call has the method, the URL and the key, and the reply is classified |
| Api.AuthValid | online/__init__.py:45-49 | the user record exactly when `GET api/v1/user` does not fail |
| Config.Key | oiseau.py:184 | each category key is non-empty and lower case |
| Config.Index | oiseau.py:184 | each category sits at its index in the category order |
| Config.FlagName | config.py:13-17 | a flag name is `SYNC_` and the upper-cased key |
| Config.SyncFlag | config.py:13-17 | `config[name]` is defined exactly for the five flag names, and is whether that category is enabled |
| Config.KeyInjective | oiseau.py:184 | no two categories share a key |
| Config.FlagNameInjective | config.py:13-17 | no two categories share a flag |
| Config.KeyUpperLower | oiseau.py:185-197 | lower-casing the upper-cased key gives the key back |
| Status.InitialKeysAreCategoryKeys | utils.py:95 | the keys of a fresh message are the category keys, in category order |
| Status.New | utils.py:94-102 | a fresh message has the five keys, in order and not done, and keeps a message id only from a 200, `ok` answer that names one |
| Status.StandardKnown | utils.py:106 | every key of a standard table names a defined flag, so rendering raises no `KeyError` |
| Status.DoneAsWritten | utils.py:104-106 | as written, `done` is true whatever the table says |
| Status.Yielded | utils.py:106 | the generator of `done` yields only `True` |
| Status.Done | utils.py:104-106 | intended `done`: every enabled category is done |
| Status.Glyph | utils.py:112 | ✅ exactly when done, 🕐 when pending and enabled, ❌ when pending and disabled |
| Status.GlyphInjective | utils.py:112 | the glyph determines the category's state |
| Status.Label | utils.py:114 | a label has the key's length and an upper-cased first character; after it, `_` becomes a space and every other character is lower-cased, so `profile_backgrounds` reads `Profile backgrounds` |
| Status.Lines | utils.py:111-115 | one line per item: glyph, space, label |
| Status.HeadersDiffer | utils.py:110-111 | the success header and the progress header can be told apart |
| Status.Render | utils.py:109-115 | the text opens with the header that matches the intended `done` |
| Status.RenderAsWritten | utils.py:109-115 | as written, the text always opens with the success header |
| Status.RenderReportsDone | utils.py:109-115 | with the intended `done`, the success header appears exactly when every enabled category is done |
| Status.RenderAsWrittenClaimsDone | utils.py:104-115 | as written, a fresh message with every category enabled announces "done!" |
| Status.LookupCategory | utils.py:129 | in a standard table the category's key sits at its index |
| Status.SetDone | utils.py:129 | a known key is set in place and keeps the key order; a new key is appended; nothing else changes and nothing done is undone |
| Status.Update | utils.py:117-124 | an edit is sent exactly when there is a message id, and it carries the text as the script writes it |
| Status.Marked | utils.py:127-130 | only the named key changes and becomes done; without a name nothing changes |
| Status.SyncDone | utils.py:127-132 | marks the named key, then sends the edit with the marked table's text as the script writes it |
| Sorting.Insert | oiseau.py:46-50 | inserting keeps the list sorted descending and is a permutation of the list plus the element |
| Sorting.InsertStable | oiseau.py:46-50 | inserting keeps the order among equal keys |
| Sorting.SortDesc | oiseau.py:46-50 | the result is sorted descending and is a permutation |
| Sorting.SortDescStable | oiseau.py:46-50 | the sort is stable: the elements of each key keep their order |
| Sorting.SortDescHead | oiseau.py:46-50 | the head has the largest key and is the first such element of the input |
| Archives.Matching | oiseau.py:47 | exactly those listed archives whose lower-cased name equals the configured name |
| Archives.MatchingAppend | oiseau.py:47 | the filter keeps the provider's order and every copy: filtering a concatenation filters each part in turn |
| Archives.MatchingOne | oiseau.py:47 | a single archive is kept exactly when its lower-cased name is the configured name |
| Archives.UpperCaseNameMatchesNothing | oiseau.py:47 | a configured name with an upper-case letter matches no archive |
| Archives.CurrentIsNewest | oiseau.py:46-81 | the archive kept is the newest one with the name, and the first listed among equally new ones |
| Archives.FirstInactive | oiseau.py:56-62 | the status of the first archive that is not active, or none when all are |
| Archives.SyncAllActive | oiseau.py:54-62 | when every archive with the name is active, the activity check of the sorted list passes |
| Archives.DeleteOutdated | oiseau.py:64-78 | one DELETE per outdated archive, in order |
| Archives.ValidSshKeys | oiseau.py:109-114 | the ids of exactly the account keys whose description matches an allowed name, ignoring case |
| Archives.ValidSshKeysAppend | oiseau.py:109-114 | the valid keys keep the account's order |
| Archives.ValidSshKeysIgnoresCase | oiseau.py:109-114 | lower-casing the allowed names changes nothing |
| Archives.Unarchive | oiseau.py:92-143 | the unarchive branch never goes on. A failed location request is passed on, and an empty location list gives "no locations". Otherwise the keys are asked for: a failed key request is passed on, and no valid key gives "no valid SSH keys". Otherwise the POST carries the first location and the valid keys, and its answer gives "started", "already requested" (409) or an escaping error |
| Archives.Resolve | oiseau.py:41-143 | a bucket is handed on only from a 2xx bucket answer |
| Archives.ResolveEarlyErrors | oiseau.py:41-62 | no archives, no matching archive, or an inactive one ends the run before any request |
| Archives.ResolveActive | oiseau.py:64-92 | with all matching archives active: the deletions, then the bucket lookup, whose answer decides the rest |
| Archives.ResolveNotFoundNeverReady | oiseau.py:86-143 | a 404 bucket answer never leads to the transfers |
| Archives.ResolveReady | oiseau.py:41-92 | going on needs every matching archive active and a 2xx bucket answer, and the bucket lookup is the last request |
| Credentials.SshUri | oiseau.py:150-153 | the URI of the last `ssh` credential; none exactly when there is no `ssh` credential |
| Credentials.SshUriAppend | oiseau.py:150-153 | a later `ssh` credential wins over an earlier one |
| Credentials.ParseSshUriAsWritten | oiseau.py:159-163 | as written: the longest leading run of `s`, `h`, `:` and `/` is dropped; the host is what follows, up to the first colon, and is never empty; the port is the rest |
| Credentials.ParseSshUriAsWrittenEatsHost | oiseau.py:161 | as written, leading scheme characters of the host are lost |
| Credentials.ParseSshUriAsWrittenLosesHost | oiseau.py:161 | as written, a host that is empty or starts with `s`, `h`, `:` or `/` never comes back intact |
| Credentials.ParseSshUriAsWrittenRoundTrip | oiseau.py:161 | as written, `ssh://HOST:PORT` round-trips exactly when HOST does not start with a scheme character |
| Credentials.ParseSshUriAsWrittenExample | oiseau.py:161 | as written, `ssh://host:22` gives the host `ost` |
| Credentials.ParseSshUri | oiseau.py:159-163 | intended: remove the `ssh://` prefix, then cut at the first colon |
| Credentials.ParseSshUriRoundTrip | oiseau.py:159-163 | intended: `ssh://HOST:PORT` always gives `(HOST, PORT)` back |
| Credentials.Remote | oiseau.py:166 | the remote is the host followed by `:/buffer` |
| Credentials.Connect | oiseau.py:150-167 | as written: "SSH not configured" exactly when there is no `ssh` credential; "invalid URI" exactly when the `lstrip` split fails; otherwise the endpoint that split gives |
| Credentials.ConnectRoundTrip | oiseau.py:150-167 | as written, a bucket whose last `ssh` credential is `ssh://HOST:PORT` is reached at `HOST:/buffer` on PORT when HOST does not start with `s`, `h`, `:` or `/` |
| Credentials.ParseSshUriAsWrittenShortHost | oiseau.py:161-163 | as written, `ssh://h:22` leaves `22`, which has no colon, so the split fails |
| Credentials.ConnectRejectsShortHost | oiseau.py:159-163 | as written, a bucket reached at `ssh://h:22` ends the run with "invalid SSH URI" |
| Credentials.ConnectIntended | oiseau.py:150-167 | intended: the same outcomes, with the URI split by removing the `ssh://` prefix |
| Credentials.ConnectIntendedRoundTrip | oiseau.py:150-167 | intended: a bucket whose last `ssh` credential is `ssh://HOST:PORT` is always reached at `HOST:/buffer` on PORT |
| Transfer.DatabaseArtifact | oiseau.py:215-227 | the database upload sends the archive exactly when compressing, otherwise the dump |
| Transfer.Lines | oiseau.py:172-245 | one shell line per step, built by the command builders |
| Transfer.DirectorySteps | oiseau.py:185-197 | exactly the enabled directories are uploaded, and none when no directory is enabled |
| Transfer.DirectoryStepsAppend | oiseau.py:185-197 | the loop keeps the list's order: the uploads for two lists are those of the first, then those of the second |
| Transfer.DirectoryStepsOrdered | oiseau.py:185-197 | directories listed in category order are uploaded in that order, each at most once |
| Transfer.Edits | utils.py:117-124 | one edit per refresh, carrying the text shown then, as the script writes it; none without a message id |
| Transfer.MarkIsSyncDone | utils.py:127-132 | each refresh of the run is the edit `sync_done` sends |
| Transfer.Perform | oiseau.py:185-255 | one step: a non-zero exit code raises that step's error; otherwise the category is marked done, the message refreshed, and the files updated |
| Transfer.FirstFailure | oiseau.py:194-250 | the first step with a non-zero exit code |
| Transfer.ExecSucceeds | oiseau.py:185-255 | the steps succeed exactly when every exit code is 0, and then all of them ran |
| Transfer.ExecStops | oiseau.py:194-250 | a failure comes from the first failing step, which is the last to run |
| Transfer.ExecProgress | oiseau.py:185-255 | the message keeps its id and never undoes a done mark; a success marks every uploaded category and sets the date exactly when the date was uploaded; a failure before the date upload keeps the old date |
| Transfer.ExecKeepsDone | oiseau.py:185-255 | the message keeps its id, and no done mark is undone |
| Transfer.ExecMarksUploads | oiseau.py:197-231 | after a success every uploaded category is done |
| Transfer.ExecDate | oiseau.py:239-255 | after a success the date is the new one exactly when the date file was uploaded; a failure before that upload keeps the old date |
| Transfer.ExecShowsCurrent | utils.py:127-132 | after a success the last message shown is the current one |
| Transfer.ExecShows | oiseau.py:197-255 | a success ending with an upload has shown a message |
| Transfer.ExecFiles | oiseau.py:199-245 | after a success the local files are those the steps leave |
| Transfer.PlanShape | oiseau.py:184-255 | the date upload comes last and only there; the dump comes right before the database upload; with nothing enabled only the date is uploaded |
| Transfer.PlanUploads | oiseau.py:185-231 | a category is uploaded exactly when enabled, and the database is dumped exactly when enabled |
| Transfer.PlanOrder | oiseau.py:184-231 | uploads follow the order replays, avatars, screenshots, profile backgrounds, database, each at most once |
| Transfer.TouchAllAppend | oiseau.py:199-245 | the files after two step lists are the files after each in turn |
| Transfer.TouchAllDirectories | oiseau.py:185-197 | directory uploads leave the local files alone |
| Transfer.Opening | oiseau.py:171-183 | the message starts with nothing done, from the downloaded date or "Never" |
| Transfer.OpeningPost | utils.py:83-97 | the first post is a space followed by the message text as the script writes it |
| Transfer.Start | oiseau.py:171-183 | after the download only the date file's download has run, and the date file is gone |
| Transfer.Run | oiseau.py:168-255 | the transfer phase starts with the download of the date file |
| Transfer.RunStops | oiseau.py:185-255 | the transfers succeed exactly when every planned command exits with 0; otherwise the first failing one names the error and nothing after it runs |
| Transfer.RunKeepsDate | oiseau.py:239-255 | the message keeps the first post's id, and a failed run keeps the downloaded date |
| Transfer.PlanCovers | oiseau.py:185-231 | marking every planned upload covers every enabled category |
| Transfer.PlanDone | oiseau.py:185-231 | such a table makes the intended `done` hold |
| Transfer.RunCompletes | oiseau.py:185-255 | a successful run leaves every enabled category done and the new date set, and its last message is the one shown; the intended text of that message announces success as well |
| Transfer.PlanFiles | oiseau.py:199-245 | the planned steps leave the date file and no temporary file |
| Transfer.RunCleansUp | oiseau.py:171-245 | a successful run leaves the date file and no temporary file behind |
| Oiseau.Reach | oiseau.py:35-167 | the user record is requested first, then the archive list; a rejected key ends the run after one request |
| Oiseau.LoggedInMeans | oiseau.py:35-38 | the run goes past the login exactly when `GET api/v1/user` answers 2xx with a truthy record |
| Oiseau.Proceed | oiseau.py:145-167 | a bucket goes on to its endpoint, found with the script's own URI split; an error ends the run as it is |
| Oiseau.Stop | oiseau.py:256-269 | an end before the transfers keeps its kind and its data |
| Oiseau.Backup | oiseau.py:33-269 | the transfers run exactly when the API phase found an endpoint; their lines are run against that endpoint, and their first failure is the run's error |
| Oiseau.ExitStatus | oiseau.py:256-269 | the status is 255 exactly after a `CriticalError`, and 0 otherwise |
| Oiseau.LoginFirst | oiseau.py:35-38 | a rejected key ends the run after one request, with status 255 and no transfer |
| Oiseau.ReachReady | oiseau.py:35-167 | the endpoint is found exactly when the key is accepted, the list is read, the bucket is handed on, and its `ssh` credential survives the script's `lstrip` split |
| Oiseau.ReachNeedsActiveBucket | oiseau.py:41-167 | an endpoint needs every matching archive active and the newest one's bucket found |
| Oiseau.ArchivedMeansNoTransfer | oiseau.py:86-143 | a 404 bucket answer means no shell line runs |
| Oiseau.BackupSucceeds | oiseau.py:168-269 | a run that reaches the transfers succeeds exactly when every planned command exits with 0; it then ran them all, marked every enabled category done, set the new date and exits with 0 |
| Oiseau.BackupFails | oiseau.py:168-269 | otherwise it stops at the first failing command with that command's error, and exits with 255 |

## Left out

- Printing to the console, the coloured output and the bird banner: output only.
- `call_process` running the command: a command is its shell line, and its exit code is an input.
- Reading `tmp/latest_sync.txt` and writing `latest_sync.txt`: the file contents are inputs, and the local files are tracked as a set of paths.
- The `tarfile` compression: modelled only as the creation of `tmp/db.tar.gz`.
- The HTTP transport of `requests`, JSON decoding and the `r.text` fallback: each answer is a decoded `Reply`.
- The chat service (`telegram_api_call`, `telegram_notify`): the answer to the first post is an input, and edits are returned as values, not sent.
- `warn` when the date file is missing: it only prints and notifies.
- The chat notification sent after a `CriticalError` or an unexpected exception: a notification only; the exit status is modelled.
- Exceptions other than `OnlineApiError` inside the run (`KeyError` on a malformed record, I/O errors): the record types carry every field the script reads.
- The `creation_date` parsing with `iso8601` and `time.mktime`: an archive carries its creation time as an integer.
- Loading the environment with `decouple`: a `Settings` value is given. config.py does not define `SSH_KEY_LOCATION`, `COMPRESS_DATABASE`, `TELEGRAM_TOKEN` or `TELEGRAM_CHAT_ID`, so reading them would raise `KeyError`; the model takes them as settings. An empty `TELEGRAM_TOKEN` means the first post has no answer, which the model covers as a missing chat reply.
- `Config()` is read again in several places: it is modelled as one fixed value for the whole run.
- Unicode case mapping: `lower`, `upper` and `capitalize` map the ASCII letters only.
- `Archives.Resolve`: its contract only says where a bucket comes from; the lemmas after it state each of its cases.
- `Transfer.Run`: its contract only says the state is valid and the download ran first; `RunStops`, `RunKeepsDate`, `RunCompletes` and `RunCleansUp` state what it achieves.

## Findings

| source | as written | input that shows it | evidently intended | confidence | as-written member | corrected member |
|---|---|---|---|---|---|---|
| oiseau.py:161 | `lstrip("ssh://")` removes every leading `s`, `h`, `:` and `/`, not the prefix | `ssh://host:22` gives the remote `ost` | remove the `ssh://` prefix only | high, not executed | Credentials.ParseSshUriAsWrittenExample, Credentials.ConnectRejectsShortHost | Credentials.ParseSshUriRoundTrip, Credentials.ConnectIntendedRoundTrip |
| utils.py:104-106 | `all(True for ... if ...)` yields only `True`, so `done` always holds | a fresh message with every category enabled announces "done!" | `all(not enabled or v ...)` | high, not executed | Status.RenderAsWrittenClaimsDone | Status.RenderReportsDone |
