/** The settings the script reads from its environment, as one immutable
    value, and the five data categories it backs up.  Loading the
    environment is not modelled; a `Settings` value is taken as given. */
module Config {
  import opened Wrappers
  import opened Text

  datatype Category = Replays | Avatars | Screenshots | ProfileBackgrounds | Database

  /** The category's key in the status message's `done_what` table. */
  function Key(c: Category): (r: string)
    ensures IsLower(r) && r != []
  {
    match c
    case Replays => "replays"
    case Avatars => "avatars"
    case Screenshots => "screenshots"
    case ProfileBackgrounds => "profile_backgrounds"
    case Database => "database"
  }

  /** The categories in the order of the `done` table of the sync loop. */
  const Categories: seq<Category> := [Replays, Avatars, Screenshots, ProfileBackgrounds, Database]

  /** The position of a category in `Categories`. */
  function Index(c: Category): (i: nat)
    ensures i < |Categories| && Categories[i] == c
  {
    match c
    case Replays => 0
    case Avatars => 1
    case Screenshots => 2
    case ProfileBackgrounds => 3
    case Database => 4
  }

  lemma CategoriesDistinct()
    ensures forall i, j :: 0 <= i < j < |Categories| ==> Categories[i] != Categories[j]
  {
  }

  /** The categories synced as directories, in sync order: all but the database. */
  const Directories: seq<Category> := [Replays, Avatars, Screenshots, ProfileBackgrounds]

  /** The name of the flag that switches a category on: `SYNC_` and the upper-cased key. */
  function FlagName(c: Category): (r: string)
    ensures r == "SYNC_" + Upper(Key(c))
  {
    match c
    case Replays => UpperReplays(); "SYNC_" + "REPLAYS"
    case Avatars => UpperAvatars(); "SYNC_" + "AVATARS"
    case Screenshots => UpperScreenshots(); "SYNC_" + "SCREENSHOTS"
    case ProfileBackgrounds => UpperProfileBackgrounds(); "SYNC_" + "PROFILE_BACKGROUNDS"
    case Database => UpperDatabase(); "SYNC_" + "DATABASE"
  }

  /** The upper-cased keys, spelled out. */
  lemma UpperReplays() ensures Upper(Key(Replays)) == "REPLAYS" {}
  lemma UpperAvatars() ensures Upper(Key(Avatars)) == "AVATARS" {}
  lemma UpperScreenshots() ensures Upper(Key(Screenshots)) == "SCREENSHOTS" {}
  lemma UpperProfileBackgrounds() ensures Upper(Key(ProfileBackgrounds)) == "PROFILE_BACKGROUNDS" {}
  lemma UpperDatabase() ensures Upper(Key(Database)) == "DATABASE" {}

  datatype Settings = Settings(
    apiKey: string,
    syncName: string,
    allowedSshKeys: seq<string>,
    enabled: set<Category>,
    replaysFolder: string,
    avatarsFolder: string,
    screenshotsFolder: string,
    profileBackgroundsFolder: string,
    dbUsername: string,
    dbPassword: string,
    dbName: string,
    compressDatabase: bool,
    sshKeyLocation: string,
    telegramChatId: string)

  /** The values config.py falls back to when the environment is silent;
      the last three settings are not defined there (see README). */
  const Defaults: Settings :=
    Settings("", "sync", [], {Replays, Avatars, Screenshots, ProfileBackgrounds, Database},
             "", "", "", "", "", "", "", false, "", "")

  /** `config["{D}_FOLDER"]` for a directory category `D`. */
  function Folder(s: Settings, c: Category): string
    requires c != Database
  {
    match c
    case Replays => s.replaysFolder
    case Avatars => s.avatarsFolder
    case Screenshots => s.screenshotsFolder
    case ProfileBackgrounds => s.profileBackgroundsFolder
  }

  /** `config[name]` for a `SYNC_*` flag name; `None` is the `KeyError`
      raised for a name config.py does not define. */
  function SyncFlag(s: Settings, name: string): (r: Option<bool>)
    ensures r.Some? <==> exists c :: FlagName(c) == name
    ensures forall c :: FlagName(c) == name ==> r == Some(c in s.enabled)
  {
    FlagNameInjective();
    if name == FlagName(Replays) then Some(Replays in s.enabled)
    else if name == FlagName(Avatars) then Some(Avatars in s.enabled)
    else if name == FlagName(Screenshots) then Some(Screenshots in s.enabled)
    else if name == FlagName(ProfileBackgrounds) then Some(ProfileBackgrounds in s.enabled)
    else if name == FlagName(Database) then Some(Database in s.enabled)
    else None
  }

  /** No two categories share a flag name. */
  lemma FlagNameInjective()
    ensures forall c, d :: FlagName(c) == FlagName(d) ==> c == d
  {
    forall c, d | FlagName(c) == FlagName(d) ensures c == d {
      assert Upper(Key(c)) == FlagName(c)[5..] == FlagName(d)[5..] == Upper(Key(d));
      KeyUpperLower(c);
      KeyUpperLower(d);
    }
  }

  /** Upper-casing a key and lower-casing it again gives the key back, so
      `sync_done(d.upper())` marks the entry `d`. */
  lemma KeyUpperLower(c: Category)
    ensures Lower(Upper(Key(c))) == Key(c)
  {
    LowerUpper(Key(c));
  }

  /** Distinct categories have distinct keys. */
  lemma KeyInjective(c: Category, d: Category)
    requires Key(c) == Key(d)
    ensures c == d
  {
  }
}
