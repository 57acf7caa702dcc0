/** The server's settings and the work-directory confinement check.

    The settings are read once, from a JSON file or from the built-in
    defaults, and only read afterwards; they are a value here. Each getter
    looks one key up and falls back to a default when the key (or the whole
    "excel" section) is missing. */
module ConfigManager {
  import opened Common
  import opened FileSystem

  /** The "excel" section of the settings; a missing key is `None`. */
  datatype ExcelSection = ExcelSection(
    supportedExtensions: Option<seq<string>>,
    maxFileSizeMb: Option<int>,
    maxFilesPerSearch: Option<int>,
    recursiveSearch: Option<bool>)

  /** The keys the getters read: the top-level "work_directory" and the
      "excel" section. */
  datatype Config = Config(workDirectory: Option<string>, excel: Option<ExcelSection>)

  const DefaultExtensions: seq<string> := [".xlsx", ".xls", ".xlsm", ".xlsb"]

  /** The settings used when no settings file can be loaded. They carry no
      work directory and no "recursive_search" key. */
  function DefaultConfig(): Config {
    Config(None, Some(ExcelSection(Some(DefaultExtensions), Some(100), Some(1000), None)))
  }

  /** The "excel" section, or an empty one when it is missing. */
  function Excel(cfg: Config): ExcelSection {
    if cfg.excel.Some? then cfg.excel.value else ExcelSection(None, None, None, None)
  }

  /** The configured work directory, or the Documents folder under the home
      directory. */
  function WorkDirectory(cfg: Config, fs: Fs): string {
    if cfg.workDirectory.Some? then cfg.workDirectory.value else Text(fs.home + "/Documents")
  }

  function SupportedExtensions(cfg: Config): seq<string> {
    var e := Excel(cfg);
    if e.supportedExtensions.Some? then e.supportedExtensions.value else DefaultExtensions
  }

  function MaxFileSizeMb(cfg: Config): int {
    var e := Excel(cfg);
    if e.maxFileSizeMb.Some? then e.maxFileSizeMb.value else 100
  }

  function MaxFilesPerSearch(cfg: Config): int {
    var e := Excel(cfg);
    if e.maxFilesPerSearch.Some? then e.maxFilesPerSearch.value else 1000
  }

  function RecursiveSearch(cfg: Config): bool {
    var e := Excel(cfg);
    if e.recursiveSearch.Some? then e.recursiveSearch.value else true
  }

  /** A key that is present wins; a missing key, or a missing "excel"
      section, gives the built-in default. */
  lemma GetterDefaults(cfg: Config, fs: Fs)
    ensures cfg.workDirectory.Some? ==> WorkDirectory(cfg, fs) == cfg.workDirectory.value
    ensures cfg.workDirectory.None? ==> WorkDirectory(cfg, fs) == Text(fs.home + "/Documents")
    ensures cfg.excel.None? ==>
              && SupportedExtensions(cfg) == [".xlsx", ".xls", ".xlsm", ".xlsb"]
              && MaxFileSizeMb(cfg) == 100
              && MaxFilesPerSearch(cfg) == 1000
              && RecursiveSearch(cfg)
    ensures cfg.excel.Some? ==>
              var e := cfg.excel.value;
              && (e.supportedExtensions.Some? ==> SupportedExtensions(cfg) == e.supportedExtensions.value)
              && (e.supportedExtensions.None? ==> SupportedExtensions(cfg) == [".xlsx", ".xls", ".xlsm", ".xlsb"])
              && (e.maxFileSizeMb.Some? ==> MaxFileSizeMb(cfg) == e.maxFileSizeMb.value)
              && (e.maxFileSizeMb.None? ==> MaxFileSizeMb(cfg) == 100)
              && (e.maxFilesPerSearch.Some? ==> MaxFilesPerSearch(cfg) == e.maxFilesPerSearch.value)
              && (e.maxFilesPerSearch.None? ==> MaxFilesPerSearch(cfg) == 1000)
              && (e.recursiveSearch.Some? ==> RecursiveSearch(cfg) == e.recursiveSearch.value)
              && (e.recursiveSearch.None? ==> RecursiveSearch(cfg))
  {
  }

  /** With the built-in settings the server looks for the four spreadsheet
      extensions, allows files up to 100 MB, collects up to 1000 files,
      searches recursively, and works in `<home>/Documents`. */
  lemma DefaultSettings(fs: Fs)
    ensures SupportedExtensions(DefaultConfig()) == [".xlsx", ".xls", ".xlsm", ".xlsb"]
    ensures MaxFileSizeMb(DefaultConfig()) == 100
    ensures MaxFilesPerSearch(DefaultConfig()) == 1000
    ensures RecursiveSearch(DefaultConfig())
    ensures DefaultConfig().workDirectory.None?
    ensures fs.home != "" ==>
              Canonical(fs, WorkDirectory(DefaultConfig(), fs)) == Canonical(fs, fs.home) + ["Documents"]
  {
    DocumentsLocation(fs);
  }

  /** The fallback work directory names the "Documents" child of the home
      directory. */
  lemma DocumentsLocation(fs: Fs)
    ensures fs.home != "" ==>
              Canonical(fs, Text(fs.home + "/Documents")) == Canonical(fs, fs.home) + ["Documents"]
  {
    if fs.home != "" {
      var w := fs.home + "/Documents";
      calc {
        Canonical(fs, Text(w));
        { TextSameLocation(fs, w); }
        Canonical(fs, w);
        { assert fs.home + "/" + "Documents" == w; }
        Canonical(fs, fs.home + "/" + "Documents");
        { ChildLocation(fs, fs.home, "Documents"); }
        Canonical(fs, fs.home) + ["Documents"];
      }
    }
  }

  // ---------------------------------------------------------------------------
  // Confinement

  /** `target.relative_to(base)` succeeds: `base`'s components are a prefix of
      `target`'s, compared component by component. */
  predicate RelativeTo(target: Canon, base: Canon) {
    |base| <= |target| && target[..|base|] == base
  }

  /** Whether `path` lies in the work directory: both are resolved; the path
      is inside when it is the work directory or lies below it. A failure
      while resolving either gives false. */
  function IsPathWithinWorkDirectory(cfg: Config, fs: Fs, path: string): (r: bool)
    ensures r ==> Resolve(fs, path).Some? && Resolve(fs, WorkDirectory(cfg, fs)).Some?
  {
    var target := Resolve(fs, path);
    if target.None? then false
    else
      var work := Resolve(fs, WorkDirectory(cfg, fs));
      if work.None? then false
      else if target.value == work.value then true
      else RelativeTo(target.value, work.value)
  }

  /** The work directory itself, however it is written, is inside. */
  lemma SameAsWorkDirectoryInside(cfg: Config, fs: Fs, path: string)
    requires Resolve(fs, path).Some?
    requires Resolve(fs, path) == Resolve(fs, WorkDirectory(cfg, fs))
    ensures IsPathWithinWorkDirectory(cfg, fs, path)
  {
  }

  /** When both resolve, a path is inside exactly when the work directory's
      components are a prefix of its components. */
  lemma {:induction false} InsideIffPrefix(cfg: Config, fs: Fs, path: string)
    requires Resolve(fs, path).Some? && Resolve(fs, WorkDirectory(cfg, fs)).Some?
    ensures IsPathWithinWorkDirectory(cfg, fs, path) <==>
              var t, w := Canonical(fs, path), Canonical(fs, WorkDirectory(cfg, fs));
              |w| <= |t| && t[..|w|] == w
  {
  }

  /** A sibling whose last component merely starts with the work directory's
      last component (`/work2` beside `/work`) is outside, and so is
      everything below it. */
  lemma SiblingOutside(cfg: Config, fs: Fs, path: string, parent: Canon, name: string, other: string, rest: Canon)
    requires Canonical(fs, WorkDirectory(cfg, fs)) == parent + [name]
    requires Canonical(fs, path) == parent + [other] + rest
    requires other != name
    ensures !IsPathWithinWorkDirectory(cfg, fs, path)
  {
    var t, w := Canonical(fs, path), Canonical(fs, WorkDirectory(cfg, fs));
    if |w| <= |t| {
      assert t[|parent|] == other && w[|parent|] == name;
      assert t[..|w|][|parent|] == other;
    }
  }

  /** Ancestors of the work directory, the root included, are outside. */
  lemma AncestorOutside(cfg: Config, fs: Fs, path: string)
    requires RelativeTo(Canonical(fs, WorkDirectory(cfg, fs)), Canonical(fs, path))
    requires Canonical(fs, path) != Canonical(fs, WorkDirectory(cfg, fs))
    ensures !IsPathWithinWorkDirectory(cfg, fs, path)
  {
  }

  /** A failure while resolving either path denies access; it never escapes. */
  lemma ResolveFaultOutside(cfg: Config, fs: Fs, path: string)
    requires Canonical(fs, path) in fs.resolveFault
          || Canonical(fs, WorkDirectory(cfg, fs)) in fs.resolveFault
    ensures !IsPathWithinWorkDirectory(cfg, fs, path)
  {
  }

  /** The verdict depends only on the location a path names. */
  lemma SameLocationSameVerdict(cfg: Config, fs: Fs, p: string, q: string)
    requires Canonical(fs, p) == Canonical(fs, q)
    ensures IsPathWithinWorkDirectory(cfg, fs, p) == IsPathWithinWorkDirectory(cfg, fs, q)
  {
  }

  /** In particular `root/x/../rest` gets the same verdict as `root/rest`. */
  lemma DotDotSameVerdict(cfg: Config, fs: Fs, root: string, x: string, rest: string)
    requires '/' !in x && x != "" && x != "." && x != ".."
    ensures IsPathWithinWorkDirectory(cfg, fs, root + "/" + x + "/../" + rest)
         == IsPathWithinWorkDirectory(cfg, fs, root + "/" + rest)
  {
    DotDotCancels(fs, root, x, rest);
  }
}
