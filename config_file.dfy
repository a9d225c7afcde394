/** `writeConfigFile` of src/utils.py as a whole: the search for the first
    free `<stem>_NNN_<ext>` name in the run folder, and the two files the
    function writes there, the run script (module `RunScript`) and the
    option table. The folder is modelled as a map from path to content. */
module ConfigFile {
  import opened Decimal
  import opened RunScript

  /** The numbered file name the search tries for counter `k`:
      `folder + '/' + stem + '_' + str(k).zfill(3) + '_' + ext`. */
  function NumberedFile(folder: string, stem: string, k: nat, ext: string): string
  {
    folder + "/" + stem + "_" + Counter(k) + "_" + ext
  }

  /** Where the counter sits in a numbered file name. */
  lemma NumberedFileCounter(folder: string, stem: string, k: nat, ext: string)
    ensures var head := folder + "/" + stem + "_";
            var f := NumberedFile(folder, stem, k, ext);
            && |f| == |head| + |Counter(k)| + 1 + |ext|
            && f[|head|..|head| + |Counter(k)|] == Counter(k)
  {
  }

  /** Distinct counters give distinct file names. */
  lemma NumberedFileInjective(folder: string, stem: string, ext: string, j: nat, k: nat)
    requires NumberedFile(folder, stem, j, ext) == NumberedFile(folder, stem, k, ext)
    ensures j == k
  {
    NumberedFileCounter(folder, stem, j, ext);
    NumberedFileCounter(folder, stem, k, ext);
    CounterInjective(j, k);
  }

  /** With every name for counters `1 .. m` taken, there are at least `m`
      existing files. */
  lemma {:induction false} TakenNamesBound(existing: set<string>, folder: string, stem: string, ext: string, m: nat)
    requires forall j :: 1 <= j <= m ==> NumberedFile(folder, stem, j, ext) in existing
    ensures m <= |existing|
  {
    if m > 0 {
      var f := NumberedFile(folder, stem, m, ext);
      var rest := existing - {f};
      forall j | 1 <= j <= m - 1
        ensures NumberedFile(folder, stem, j, ext) in rest
      {
        if NumberedFile(folder, stem, j, ext) == f {
          NumberedFileInjective(folder, stem, ext, j, m);
        }
      }
      TakenNamesBound(rest, folder, stem, ext, m - 1);
    }
  }

  /** `path` is the numbered file with the smallest counter from 1 up that
      does not exist yet. */
  ghost predicate IsFirstFree(existing: set<string>, folder: string, stem: string, ext: string, path: string)
  {
    exists k: nat :: IsFirstFreeAt(existing, folder, stem, ext, path, k)
  }

  ghost predicate IsFirstFreeAt(existing: set<string>, folder: string, stem: string, ext: string, path: string, k: nat)
  {
    && k >= 1
    && path == NumberedFile(folder, stem, k, ext)
    && path !in existing
    && forall j :: 1 <= j < k ==> NumberedFile(folder, stem, j, ext) in existing
  }

  /** The file search of `writeConfigFile`: start from counter 001 and, while
      the candidate exists, count up from 1 and try again (so 001 is tried
      twice when it is taken). The result is the first free name from 001
      on; 000 is never produced. */
  method FirstFreeFile(existing: set<string>, folder: string, stem: string, ext: string)
    returns (path: string, index: nat)
    ensures index >= 1
    ensures path == NumberedFile(folder, stem, index, ext)
    ensures path !in existing
    ensures forall j :: 1 <= j < index ==> NumberedFile(folder, stem, j, ext) in existing
  {
    var file := folder + "/" + stem + "_001_";
    assert Counter(1) == "001";
    var count := 0;
    while file + ext in existing
      invariant file + ext == NumberedFile(folder, stem, if count == 0 then 1 else count, ext)
      invariant forall j :: 1 <= j < count ==> NumberedFile(folder, stem, j, ext) in existing
      invariant count <= |existing| + 1
      decreases |existing| + 1 - count
    {
      if count > 0 {
        TakenNamesBound(existing, folder, stem, ext, count);
      }
      count := count + 1;
      file := folder + "/" + stem + "_" + Counter(count) + "_";
    }
    path := file + ext;
    index := if count == 0 then 1 else count;
  }

  /** At most one name is the first free one. */
  lemma FirstFreeUnique(existing: set<string>, folder: string, stem: string, ext: string, p: string, q: string)
    requires IsFirstFree(existing, folder, stem, ext, p)
    requires IsFirstFree(existing, folder, stem, ext, q)
    ensures p == q
  {
    var i: nat :| IsFirstFreeAt(existing, folder, stem, ext, p, i);
    var j: nat :| IsFirstFreeAt(existing, folder, stem, ext, q, j);
    if i < j {
      assert false;
    } else if j < i {
      assert false;
    }
  }

  /** The first free name never carries counter 000. */
  lemma FirstFreeNeverZero(existing: set<string>, folder: string, stem: string, ext: string, p: string)
    requires IsFirstFree(existing, folder, stem, ext, p)
    ensures p != NumberedFile(folder, stem, 0, ext)
  {
    var i: nat :| IsFirstFreeAt(existing, folder, stem, ext, p, i);
    if p == NumberedFile(folder, stem, 0, ext) {
      NumberedFileInjective(folder, stem, ext, i, 0);
    }
  }

  /** What a written file holds: the run script text, or the option table
      of the configuration CSV together with the git commit it records. */
  datatype Content = Script(text: string) | ConfigTable(options: Options, gitSha: string)

  /** The files of the run folder, by path. */
  class FileSystem {
    var files: map<string, Content>

    constructor (initial: map<string, Content>)
      ensures files == initial
    {
      files := initial;
    }

    /** `writeConfigFile`: writes the run script under the first free
        `runScript_NNN_.sh` name, then the option table under the first free
        `config_NNN_.csv` name (searched after the script exists), and
        returns true. The git commit is a parameter. */
    method WriteConfigFile(o: Options, folder: string, gitSha: string)
      returns (ok: bool, ghost rsFile: string, ghost cfgFile: string)
      modifies this
      ensures ok
      ensures IsFirstFree(old(files).Keys, folder, "runScript", ".sh", rsFile)
      ensures IsFirstFree(old(files).Keys + {rsFile}, folder, "config", ".csv", cfgFile)
      ensures files == old(files)[rsFile := Script(RunScriptText(o))][cfgFile := ConfigTable(o, gitSha)]
    {
      var runScript := BuildRunScript(o);
      var rs, i := FirstFreeFile(files.Keys, folder, "runScript", ".sh");
      assert IsFirstFreeAt(files.Keys, folder, "runScript", ".sh", rs, i);
      files := files[rs := Script(runScript)];
      assert files.Keys == old(files).Keys + {rs};
      var cfg, j := FirstFreeFile(files.Keys, folder, "config", ".csv");
      assert IsFirstFreeAt(files.Keys, folder, "config", ".csv", cfg, j);
      files := files[cfg := ConfigTable(o, gitSha)];
      ok, rsFile, cfgFile := true, rs, cfg;
    }
  }
}
