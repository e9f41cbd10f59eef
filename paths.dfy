/** Project-root resolution and the secrets loader of the configuration
    package.  A directory is the list of its path components below the
    filesystem root (`[]` is the root itself, which is its own parent), and
    the filesystem is the set of (directory, file name) pairs that exist. */
module ProjectPaths {
  import opened Wrappers
  import opened Text

  type Dir = seq<string>
  type Files = set<(Dir, string)>

  /** `Path(dir) / name` on POSIX path strings: an absolute `name` replaces
      `dir`. */
  function JoinPath(dir: string, name: string): (r: string)
    ensures StartsWith(name, "/") ==> r == name
    ensures !StartsWith(name, "/") ==> StartsWith(r, dir) && r[|dir|..] == "/" + name
  {
    if StartsWith(name, "/") then name else dir + "/" + name
  }

  /** `_SENTINELS`: files that mark the repository root. */
  const Sentinels: seq<string> := ["sucursales.json", "pyproject.toml", "secrets.env.example"]

  /** `_cwd_looks_like_root`: at least one sentinel exists in `d`. */
  predicate LooksLikeRoot(d: Dir, files: Files) {
    exists i :: 0 <= i < |Sentinels| && (d, Sentinels[i]) in files
  }

  /** `Path.parent`. */
  function Parent(d: Dir): Dir {
    if d == [] then [] else d[..|d| - 1]
  }

  /** The directory `k` levels above `d` (the root once `k` passes it). */
  function Ancestor(d: Dir, k: nat): Dir {
    if k <= |d| then d[..|d| - k] else []
  }

  /** The walk of `_find_root_from_file`: at most `fuel` directories are
      tried, from `current` upwards, stopping at the filesystem root. */
  function WalkUp(current: Dir, files: Files, fuel: nat): (r: Option<Dir>)
    ensures r.Some? ==> LooksLikeRoot(r.value, files)
    decreases fuel
  {
    if fuel == 0 then None
    else if LooksLikeRoot(current, files) then Some(current)
    else if Parent(current) == current then None
    else WalkUp(Parent(current), files, fuel - 1)
  }

  /** When the walk finds a directory, it is the nearest of the first `fuel`
      ancestors that holds a sentinel. */
  lemma {:induction false} WalkUpNearest(current: Dir, files: Files, fuel: nat)
    ensures var r := WalkUp(current, files, fuel);
      r.Some? ==> exists k :: (0 <= k < fuel && k <= |current| && r.value == Ancestor(current, k)
                               && forall j :: 0 <= j < k ==> !LooksLikeRoot(Ancestor(current, j), files))
    decreases fuel
  {
    assert current == Ancestor(current, 0);
    if fuel > 0 && !LooksLikeRoot(current, files) && Parent(current) != current {
      var p := Parent(current);
      WalkUpNearest(p, files, fuel - 1);
      var r := WalkUp(p, files, fuel - 1);
      if r.Some? {
        AncestorOfParent(current);
        var k :| 0 <= k < fuel - 1 && k <= |p| && r.value == Ancestor(p, k)
                 && forall j :: 0 <= j < k ==> !LooksLikeRoot(Ancestor(p, j), files);
        assert r.value == Ancestor(current, k + 1);
        assert forall j :: 1 <= j < k + 1 ==> Ancestor(current, j) == Ancestor(p, j - 1);
      }
    }
  }

  /** The walk finds nothing exactly when none of the first `fuel` ancestors
      holds a sentinel. */
  lemma {:induction false} WalkUpMisses(current: Dir, files: Files, fuel: nat)
    ensures WalkUp(current, files, fuel).None? <==>
      forall k :: 0 <= k < fuel && k <= |current| ==> !LooksLikeRoot(Ancestor(current, k), files)
    decreases fuel
  {
    assert current == Ancestor(current, 0);
    if fuel > 0 && !LooksLikeRoot(current, files) && Parent(current) != current {
      var p := Parent(current);
      WalkUpMisses(p, files, fuel - 1);
      AncestorOfParent(current);
      assert forall k :: 1 <= k < fuel && k <= |current| ==> Ancestor(current, k) == Ancestor(p, k - 1);
    }
  }

  /** The ancestors of the parent are the ancestors of `d` one level up. */
  lemma AncestorOfParent(d: Dir)
    requires d != []
    ensures forall k: nat :: Ancestor(Parent(d), k) == Ancestor(d, k + 1)
  {
  }

  /** `_find_root_from_file`: walks up from the package directory, trying at
      most ten directories. */
  method FindRootFromFile(moduleDir: Dir, files: Files) returns (r: Option<Dir>)
    ensures r == WalkUp(moduleDir, files, 10)
  {
    var current := moduleDir;
    var i := 0;
    while i < 10
      invariant 0 <= i <= 10
      invariant WalkUp(current, files, 10 - i) == WalkUp(moduleDir, files, 10)
    {
      if LooksLikeRoot(current, files) {
        return Some(current);
      }
      var parent := Parent(current);
      if parent == current {
        return None;
      }
      current := parent;
      i := i + 1;
    }
    return None;
  }

  /** The precedence of `get_project_root`: the working directory when it
      holds a sentinel, else POS_PIPELINE_ROOT (already resolved; `None` when
      unset or empty) when it holds one, else the walk from the package
      directory, else the working directory. */
  function ProjectRoot(cwd: Dir, envRoot: Option<Dir>, moduleDir: Dir, files: Files): (r: Dir)
    ensures r == cwd || LooksLikeRoot(r, files)
    ensures LooksLikeRoot(cwd, files) ==> r == cwd
    ensures !LooksLikeRoot(cwd, files) && envRoot.Some? && LooksLikeRoot(envRoot.value, files) ==> r == envRoot.value
    ensures !LooksLikeRoot(cwd, files) && (envRoot.None? || !LooksLikeRoot(envRoot.value, files)) ==>
      r == WalkUp(moduleDir, files, 10).GetOr(cwd)
  {
    if LooksLikeRoot(cwd, files) then cwd
    else if envRoot.Some? && LooksLikeRoot(envRoot.value, files) then envRoot.value
    else WalkUp(moduleDir, files, 10).GetOr(cwd)
  }

  /** `get_project_root`. */
  method GetProjectRoot(cwd: Dir, envRoot: Option<Dir>, moduleDir: Dir, files: Files) returns (root: Dir)
    ensures root == ProjectRoot(cwd, envRoot, moduleDir, files)
  {
    if LooksLikeRoot(cwd, files) {
      return cwd;
    }
    if envRoot.Some? && LooksLikeRoot(envRoot.value, files) {
      return envRoot.value;
    }
    var found := FindRootFromFile(moduleDir, files);
    if found.Some? {
      return found.value;
    }
    return cwd;
  }

  // ---------------------------------------------------------------- secrets

  predicate IsQuote(c: char) {
    c == '"' || c == '\''
  }

  /** `s.strip('"\'')`: quote characters removed from both ends. */
  function StripQuotes(s: string): string {
    RStripQuotes(LStripQuotes(s))
  }

  function LStripQuotes(s: string): string {
    if |s| > 0 && IsQuote(s[0]) then LStripQuotes(s[1..]) else s
  }

  function RStripQuotes(s: string): string {
    if |s| > 0 && IsQuote(s[|s| - 1]) then RStripQuotes(s[..|s| - 1]) else s
  }

  /** One line of a secrets file: skipped when blank or a `#` comment; a
      `KEY=value` assignment when it holds `=` and does not start with
      "export", split at the first `=`, the key stripped of whitespace and
      the value stripped of quote characters. */
  function ParseLine(raw: string): (r: Option<(string, string)>)
    ensures r.None? <==> var line := Strip(raw);
      line == [] || StartsWith(line, "#") || '=' !in line || StartsWith(line, "export")
    ensures r.Some? ==> '=' !in r.value.0
  {
    var line := Strip(raw);
    if line == [] || StartsWith(line, "#") then None
    else if '=' in line && !StartsWith(line, "export") then
      var i := IndexOf(line, '=').value;
      StripSpec(line[..i]);
      Some((Strip(line[..i]), StripQuotes(line[i + 1..])))
    else None
  }

  /** A written assignment is read back as its key and value; any `=` in the
      value is kept. */
  lemma ParseAssignment(k: string, v: string)
    requires k != [] && '=' !in k && !IsSpace(k[0]) && !IsSpace(k[|k| - 1])
    requires k[0] != '#' && !StartsWith(k, "export")
    requires v == [] || (!IsQuote(v[0]) && !IsQuote(v[|v| - 1]) && !IsSpace(v[|v| - 1]))
    ensures ParseLine(k + "=" + v) == Some((k, v))
  {
    var line := k + "=" + v;
    StripTrimmed(line);
    StripTrimmed(k);
    NotExport(k, v);
    assert line[..|k|] == k && line[|k| + 1..] == v;
    AssignmentSplit(k, v);
    assert StripQuotes(v) == v;
  }

  lemma AssignmentSplit(k: string, v: string)
    requires '=' !in k
    ensures IndexOf(k + "=" + v, '=') == Some(|k|)
  {
    var line := k + "=" + v;
    assert line[|k|] == '=' && line[..|k|] == k;
  }

  lemma NotExport(k: string, v: string)
    requires '=' !in k && !StartsWith(k, "export")
    ensures !StartsWith(k + "=" + v, "export")
  {
    var line := k + "=" + v;
    if |k| >= 6 {
      assert line[..6] == k[..6];
    } else {
      assert line[|k|] == '=';
    }
  }

  /** `os.environ.setdefault(key, value)` on the variables `vars`. */
  function SetDefaultIn(vars: map<string, string>, key: string, value: string): (r: map<string, string>)
    ensures r.Keys == vars.Keys + {key}
    ensures forall k :: k in vars ==> r[k] == vars[k]
    ensures key !in vars ==> r[key] == value
  {
    if key in vars then vars else vars[key := value]
  }

  /** The variables after reading the given lines in order. */
  function ApplyLines(vars: map<string, string>, lines: seq<string>): map<string, string>
    decreases |lines|
  {
    if lines == [] then vars
    else
      var next := match ParseLine(lines[0])
        case None => vars
        case Some(kv) => SetDefaultIn(vars, kv.0, kv.1);
      ApplyLines(next, lines[1..])
  }

  /** Loading never changes a variable that is already set; in particular a
      variable read from secrets.env is not changed by utils/secrets.env. */
  lemma {:induction false} NeverOverwrites(vars: map<string, string>, lines: seq<string>)
    ensures forall k :: k in vars ==> k in ApplyLines(vars, lines) && ApplyLines(vars, lines)[k] == vars[k]
    decreases |lines|
  {
    if lines != [] {
      var next := match ParseLine(lines[0])
        case None => vars
        case Some(kv) => SetDefaultIn(vars, kv.0, kv.1);
      NeverOverwrites(next, lines[1..]);
    }
  }

  /** Of several lines setting an unset variable, the first one wins. */
  lemma {:induction false} FirstLineWins(vars: map<string, string>, lines: seq<string>, i: nat, k: string, v: string)
    requires i < |lines| && ParseLine(lines[i]) == Some((k, v)) && k !in vars
    requires forall j :: 0 <= j < i ==> ParseLine(lines[j]).None? || ParseLine(lines[j]).value.0 != k
    ensures k in ApplyLines(vars, lines) && ApplyLines(vars, lines)[k] == v
    decreases |lines|
  {
    var next := match ParseLine(lines[0])
      case None => vars
      case Some(kv) => SetDefaultIn(vars, kv.0, kv.1);
    if i == 0 {
      NeverOverwrites(next, lines[1..]);
    } else {
      assert forall j :: 0 <= j < i - 1 ==> lines[1..][j] == lines[j + 1];
      FirstLineWins(next, lines[1..], i - 1, k, v);
    }
  }

  /** `os.environ`. */
  class Environ {
    var vars: map<string, string>

    constructor(initial: map<string, string>)
      ensures vars == initial
    {
      vars := initial;
    }

    /** `os.environ.setdefault(key, value)`. */
    method SetDefault(key: string, value: string)
      modifies this
      ensures vars == SetDefaultIn(old(vars), key, value)
    {
      if key !in vars {
        vars := vars[key := value];
      }
    }
  }

  /** The line loop of `load_secrets_env` for one file. */
  method LoadLines(env: Environ, lines: seq<string>)
    modifies env
    ensures env.vars == ApplyLines(old(env.vars), lines)
  {
    var i := 0;
    while i < |lines|
      invariant 0 <= i <= |lines|
      invariant ApplyLines(env.vars, lines[i..]) == ApplyLines(old(env.vars), lines)
    {
      assert lines[i..][0] == lines[i] && lines[i..][1..] == lines[i + 1..];
      var parsed := ParseLine(lines[i]);
      if parsed.Some? {
        env.SetDefault(parsed.value.0, parsed.value.1);
      }
      i := i + 1;
    }
  }

  /** `load_secrets_env`: secrets.env then utils/secrets.env under the project
      root, each read only when it exists (`None` when it does not). */
  method LoadSecretsEnv(env: Environ, secretsEnv: Option<seq<string>>, utilsSecretsEnv: Option<seq<string>>)
    modifies env
    ensures env.vars == ApplyLines(ApplyLines(old(env.vars), secretsEnv.GetOr([])), utilsSecretsEnv.GetOr([]))
  {
    if secretsEnv.Some? {
      LoadLines(env, secretsEnv.value);
    }
    if utilsSecretsEnv.Some? {
      LoadLines(env, utilsSecretsEnv.value);
    }
  }
}
