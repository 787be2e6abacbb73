/** The shell command lines the script hands to the shell: `rsync_upload_cmd`
    and `scp_download_cmd` from utils.py, and the `mysqldump` line of the
    database step.  Each is a fixed template (module Template), so each
    contract says the line starts and ends with the template's text and that
    its fields can be read back as long as no field contains the character
    that closes it. */
module Commands {
  import opened Wrappers
  import Template

  /** The literals of the upload line, around its port, key, source and destination. */
  const RsyncLits: seq<string> :=
    ["rsync -e \"ssh -p ", " -oStrictHostKeyChecking=no -i ", "\" -azvP \"", "\" \"", "\" "]

  /** The literals of the download line, around its port, key, source and local file. */
  const ScpLits: seq<string> := ["scp -P ", " -i ", " ", " ", ""]

  /** The literals of the dump line, around its user, password, database and output file. */
  const DumpLits: seq<string> := ["mysqldump -u \"", "\" \"-p", "\" \"", "\" > ", ""]

  /** Upload `source` to `dest` over ssh on `port` with identity file `key`;
      the line ends with a space after the closing quote. */
  function RsyncUploadCmd(source: string, dest: string, port: string, key: string): (r: string)
    ensures "rsync -e \"ssh -p " + port + " -oStrictHostKeyChecking=no -i " <= r
    ensures r[|r| - 2..] == "\" "
  {
    "rsync -e \"ssh -p " + port + " -oStrictHostKeyChecking=no -i " + key
    + "\" -azvP \"" + source + "\" \"" + dest + "\" "
  }

  /** The upload line can be read back into its four fields. */
  lemma RsyncUploadCmdFields(source: string, dest: string, port: string, key: string)
    requires ' ' !in port && '"' !in key && '"' !in source && '"' !in dest
    ensures Template.Parse(RsyncLits, RsyncUploadCmd(source, dest, port, key))
              == Some([port, key, source, dest])
  {
    var args := [port, key, source, dest];
    assert RsyncUploadCmd(source, dest, port, key) == Template.Fill(RsyncLits, args) by {
      Template.FillFour(RsyncLits, port, key, source, dest);
    }
    assert Template.WellFormed(RsyncLits) && Template.Fits(RsyncLits, args) by {
      assert RsyncLits[1][0] == ' ' && RsyncLits[2][0] == '"' && RsyncLits[3][0] == '"' && RsyncLits[4][0] == '"';
    }
    Template.ParseFill(RsyncLits, args);
  }

  /** Download `source` from the remote into `localFile` over scp on `port`. */
  function ScpDownloadCmd(source: string, port: string, localFile: string, key: string): (r: string)
    ensures "scp -P " + port + " -i " + key + " " <= r
  {
    "scp -P " + port + " -i " + key + " " + source + " " + localFile
  }

  /** The download line can be read back into its four fields. */
  lemma ScpDownloadCmdFields(source: string, port: string, localFile: string, key: string)
    requires ' ' !in port && ' ' !in key && ' ' !in source
    ensures Template.Parse(ScpLits, ScpDownloadCmd(source, port, localFile, key))
              == Some([port, key, source, localFile])
  {
    var args := [port, key, source, localFile];
    assert ScpDownloadCmd(source, port, localFile, key) == Template.Fill(ScpLits, args) by {
      Template.FillFour(ScpLits, port, key, source, localFile);
    }
    assert Template.WellFormed(ScpLits) && Template.Fits(ScpLits, args) by {
      assert ScpLits[1][0] == ' ' && ScpLits[2][0] == ' ' && ScpLits[3][0] == ' ' && ScpLits[4] == [];
    }
    Template.ParseFill(ScpLits, args);
  }

  /** Dump database `name` as `user` into `output` through a shell redirection. */
  function DumpCmd(user: string, password: string, name: string, output: string): (r: string)
    ensures "mysqldump -u \"" + user + "\" \"-p" <= r
  {
    "mysqldump -u \"" + user + "\" \"-p" + password + "\" \"" + name + "\" > " + output
  }

  /** The dump line can be read back into its four fields. */
  lemma DumpCmdFields(user: string, password: string, name: string, output: string)
    requires '"' !in user && '"' !in password && '"' !in name
    ensures Template.Parse(DumpLits, DumpCmd(user, password, name, output))
              == Some([user, password, name, output])
  {
    var args := [user, password, name, output];
    assert DumpCmd(user, password, name, output) == Template.Fill(DumpLits, args) by {
      Template.FillFour(DumpLits, user, password, name, output);
    }
    assert Template.WellFormed(DumpLits) && Template.Fits(DumpLits, args) by {
      assert DumpLits[1][0] == '"' && DumpLits[2][0] == '"' && DumpLits[3][0] == '"' && DumpLits[4] == [];
    }
    Template.ParseFill(DumpLits, args);
  }

  /** Two uploads whose fields avoid the closing characters are the same
      command line only if they move the same file to the same place. */
  lemma RsyncInjective(s1: string, d1: string, p1: string, k1: string,
                       s2: string, d2: string, p2: string, k2: string)
    requires ' ' !in p1 && '"' !in k1 && '"' !in s1 && '"' !in d1
    requires ' ' !in p2 && '"' !in k2 && '"' !in s2 && '"' !in d2
    requires RsyncUploadCmd(s1, d1, p1, k1) == RsyncUploadCmd(s2, d2, p2, k2)
    ensures s1 == s2 && d1 == d2 && p1 == p2 && k1 == k2
  {
    RsyncUploadCmdFields(s1, d1, p1, k1);
    RsyncUploadCmdFields(s2, d2, p2, k2);
    assert [p1, k1, s1, d1] == [p2, k2, s2, d2];
  }
}
