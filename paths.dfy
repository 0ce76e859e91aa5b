/** Paths and names: where each feature's documents live, and how a backup
    directory is named. A path is the list of its components; `[]` is the
    filesystem root. */
module Paths {
  import opened Schemas

  type Path = seq<string>

  const CodeloopsDir: string := ".codeloops"
  const ProblemFile: string := "problem.json"
  const TechnicalFile: string := "technical.json"
  const TasksFile: string := "tasks.json"

  /** `<root>/.codeloops`, the directory that holds one sub-directory per feature. */
  function CodeloopsPath(root: Path): Path {
    root + [CodeloopsDir]
  }

  /** `<root>/.codeloops/<featureName>`. */
  function ProjectPath(root: Path, featureName: string): (p: Path)
    ensures |p| == |root| + 2 && p[..|root| + 1] == CodeloopsPath(root) && p[|root| + 1] == featureName
  {
    CodeloopsPath(root) + [featureName]
  }

  function FileName(kind: Kind): string {
    match kind
    case Problem => ProblemFile
    case Technical => TechnicalFile
    case Tasks => TasksFile
  }

  /** `<root>/.codeloops/<featureName>/<file of kind>`. */
  function DocPath(root: Path, featureName: string, kind: Kind): (p: Path)
    ensures p != [] && Parent(p) == ProjectPath(root, featureName) && p[|p| - 1] == FileName(kind)
  {
    ProjectPath(root, featureName) + [FileName(kind)]
  }

  function Parent(p: Path): Path
    requires p != []
  {
    p[..|p| - 1]
  }

  /** Every prefix of `p`, from the root `[]` to `p` itself. */
  function Prefixes(p: Path): (r: set<Path>)
    ensures p in r && forall k :: 0 <= k <= |p| ==> p[..k] in r
    ensures forall q :: q in r ==> |q| <= |p| && q == p[..|q|]
  {
    assert p[..|p|] == p;
    set k | 0 <= k <= |p| :: p[..k]
  }

  /** Distinct features live in distinct directories, and the three documents
      of one feature in distinct files. */
  lemma PathsAreDistinct(root: Path, f: string, g: string, k: Kind, l: Kind)
    ensures ProjectPath(root, f) == ProjectPath(root, g) <==> f == g
    ensures DocPath(root, f, k) == DocPath(root, g, l) <==> f == g && k == l
  {
    var p, q := DocPath(root, f, k), DocPath(root, g, l);
    if p == q {
      assert p[|root| + 1] == q[|root| + 1];
      assert p[|root| + 2] == q[|root| + 2];
    }
  }

  // ---------------------------------------------------------------------
  // Backup names
  // ---------------------------------------------------------------------

  /** `s.replace(/[:.]/g, '-')`. */
  function ReplaceSeparators(s: string): (r: string)
    ensures |r| == |s|
    ensures ':' !in r && '.' !in r
    ensures forall i :: 0 <= i < |s| ==> r[i] == (if s[i] == ':' || s[i] == '.' then '-' else s[i])
  {
    if s == [] then []
    else [if s[0] == ':' || s[0] == '.' then '-' else s[0]] + ReplaceSeparators(s[1..])
  }

  /** `<featureName>-backup-<now with ':' and '.' turned into '-'>`. */
  function BackupName(featureName: string, now: string): string {
    featureName + "-backup-" + ReplaceSeparators(now)
  }

  /** A backup name starts with the feature name and the marker `-backup-`,
      is followed by a separator-free timestamp of the same length, and is
      never the feature name itself (so backing up never writes into the
      directory it copies from). */
  lemma BackupNameShape(featureName: string, now: string)
    ensures var b := BackupName(featureName, now);
      && |b| == |featureName| + 8 + |now|
      && b[..|featureName| + 8] == featureName + "-backup-"
      && ':' !in b[|featureName| + 8..] && '.' !in b[|featureName| + 8..]
      && b != featureName
  {
    var b := BackupName(featureName, now);
    assert b[|featureName| + 8..] == ReplaceSeparators(now);
  }
}
