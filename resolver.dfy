/**
 * The model registry resolver: a registry root directory whose entries named
 * by integers are model versions. It finds the latest version, builds the
 * read paths of the three artifacts stored in it, and allocates the next
 * version directory when a model is saved.
 */
module Resolver {
  import opened Wrappers
  import opened Decimal
  import opened Paths

  /** The three artifacts stored in every version directory. */
  datatype ArtifactKind = Transformer | Model | TargetEncoder

  const DefaultRegistry: string := "saved_models"
  const TransformerFileName: string := "transformer.pkl"
  const ModelFileName: string := "model.pkl"
  const TargetEncoderFileName: string := "target_encoder.pkl"

  function FileName(kind: ArtifactKind): (f: string)
    ensures f != [] && Separator !in f
  {
    match kind
    case Transformer => TransformerFileName
    case Model => ModelFileName
    case TargetEncoder => TargetEncoderFileName
  }

  /** The three file names differ, so the three artifacts of a version never share a file. */
  lemma FileNamesDistinct(k1: ArtifactKind, k2: ArtifactKind)
    requires k1 != k2
    ensures FileName(k1) != FileName(k2)
  {
  }

  /** The exception raised by a reader when the registry holds no version. */
  datatype Error = NotAvailable(kind: ArtifactKind)

  function KindLabel(kind: ArtifactKind): string {
    match kind
    case Transformer => "Transformer"
    case Model => "Model"
    case TargetEncoder => "Target Encoder"
  }

  /** The exception's message, which names the artifact asked for. */
  function Message(e: Error): (m: string)
    ensures |KindLabel(e.kind)| <= |m| && m[..|KindLabel(e.kind)|] == KindLabel(e.kind)
  {
    KindLabel(e.kind) + " is not available"
  }

  /** The versions named by a listing: entries that do not parse are skipped. */
  function Versions(names: set<string>): set<int> {
    set e | e in names && ParseInt(e).Some? :: ParseInt(e).value
  }

  /** e is a parseable entry whose version is at least that of every other parseable entry. */
  ghost predicate IsLatestName(e: string, names: set<string>) {
    e in names && ParseInt(e).Some? &&
    forall e' :: e' in names && ParseInt(e').Some? ==> ParseInt(e').value <= ParseInt(e).value
  }

  /** A listing with a parseable entry has a latest one. */
  lemma VersionsMembership(names: set<string>)
    ensures forall v :: v in Versions(names) <==> exists e :: e in names && ParseInt(e) == Some(v)
  {
  }

  lemma {:induction false} HasLatestName(names: set<string>)
    requires exists e :: e in names && ParseInt(e).Some?
    ensures exists e :: IsLatestName(e, names)
  {
    var e0 :| e0 in names && ParseInt(e0).Some?;
    var rest := names - {e0};
    if exists e :: e in rest && ParseInt(e).Some? {
      HasLatestName(rest);
      var e1 :| IsLatestName(e1, rest);
      assert names == rest + {e0};
      if ParseInt(e1).value < ParseInt(e0).value {
        assert IsLatestName(e0, names);
      } else {
        assert IsLatestName(e1, names);
      }
    } else {
      assert names == rest + {e0};
      assert IsLatestName(e0, names);
    }
  }

  /** The latest version of a listing (`max` of the parsed names), or None when no entry parses. */
  function Latest(names: set<string>): (r: Option<int>)
    ensures r.None? <==> forall e :: e in names ==> ParseInt(e).None?
    ensures r.Some? ==> exists e :: e in names && ParseInt(e) == r
    ensures r.Some? ==> forall e :: e in names && ParseInt(e).Some? ==> ParseInt(e).value <= r.value
  {
    if forall e :: e in names ==> ParseInt(e).None? then
      None
    else
      var vs := Versions(names);
      HasMaximumVersion(names);
      var m :| m in vs && forall v :: v in vs ==> v <= m;
      MaximumVersionIsLatest(names, m);
      Some(m)
  }

  lemma HasMaximumVersion(names: set<string>)
    requires exists e :: e in names && ParseInt(e).Some?
    ensures exists v :: v in Versions(names) && forall w :: w in Versions(names) ==> w <= v
  {
    VersionsMembership(names);
    HasLatestName(names);
    var e :| IsLatestName(e, names);
    assert ParseInt(e).value in Versions(names);
  }

  lemma MaximumVersionIsLatest(names: set<string>, m: int)
    requires m in Versions(names) && forall v :: v in Versions(names) ==> v <= m
    ensures exists e :: e in names && ParseInt(e) == Some(m)
    ensures forall e :: e in names && ParseInt(e).Some? ==> ParseInt(e).value <= m
  {
    VersionsMembership(names);
  }

  /** The version a save allocates: 0 on a registry with no version, else the latest plus one. */
  function NextVersion(names: set<string>): (n: int)
    ensures forall e :: e in names && ParseInt(e).Some? ==> ParseInt(e).value < n
    ensures Latest(names).None? ==> n == 0
  {
    match Latest(names)
    case None => 0
    case Some(m) => m + 1
  }

  /** The listing after a save: the allocated name is new, and it is the only change. */
  function AfterSave(names: set<string>): (after: set<string>)
    ensures names < after
    ensures after - names == {Render(NextVersion(names))}
  {
    var n := NextVersion(names);
    ParseRender(n);
    names + {Render(n)}
  }

  /** A save makes its own directory the latest one. */
  lemma SaveThenLatest(names: set<string>)
    ensures Latest(AfterSave(names)) == Some(NextVersion(names))
  {
  }

  /** Two saves in a row allocate consecutive version numbers. */
  lemma ConsecutiveSaves(names: set<string>)
    ensures NextVersion(AfterSave(names)) == NextVersion(names) + 1
  {
  }

  /** The three save paths of one allocation, keyed as the source's dictionary is. */
  datatype SavePaths = SavePaths(transformerPath: string, modelPath: string, targetEncoderPath: string)
  {
    function Get(kind: ArtifactKind): string {
      match kind
      case Transformer => transformerPath
      case Model => modelPath
      case TargetEncoder => targetEncoderPath
    }
  }

  /**
   * The resolver over one registry root. `entries` is the directory listing of
   * the root, which every call re-reads; saves add to it.
   */
  class ModelResolver {
    const root: string
    var entries: set<string>

    /** `listing` is what the root already holds; creating the root if absent leaves it empty. */
    constructor (listing: set<string>, modelRegistry: string := DefaultRegistry)
      ensures root == modelRegistry && entries == listing
    {
      root := modelRegistry;
      entries := listing;
    }

    /** The path of the latest version directory, named canonically, or None. */
    function LatestDir(): (r: Option<string>)
      reads this
      ensures r.None? <==> forall e :: e in entries ==> ParseInt(e).None?
      ensures r.Some? ==> Dirname(r.value) == root && ParseInt(Basename(r.value)) == Latest(entries)
      ensures r.Some? ==> r.value == Join(root, Render(Latest(entries).value))
    {
      match Latest(entries)
      case None => None
      case Some(m) =>
        ParseRender(m);
        SplitJoin(root, Render(m));
        Some(Join(root, Render(m)))
    }

    /** Python's `max` over the list of parsed names. */
    static method MaxOfList(xs: seq<int>) returns (m: int)
      requires |xs| > 0
      ensures m in xs && forall i :: 0 <= i < |xs| ==> xs[i] <= m
    {
      m := xs[0];
      var i := 1;
      while i < |xs|
        invariant 1 <= i <= |xs|
        invariant m in xs[..i]
        invariant forall j :: 0 <= j < i ==> xs[j] <= m
      {
        if xs[i] > m {
          m := xs[i];
        }
        i := i + 1;
      }
    }

    /** The loop of `get_latest_dir_path`: `int(name)` of every entry, skipping those that raise. */
    static method ParseAll(names: set<string>) returns (numeric: seq<int>)
      ensures (set v | v in numeric) == Versions(names)
    {
      numeric := [];
      var rest := names;
      while rest != {}
        invariant rest <= names
        invariant forall v :: v in numeric <==> exists e :: e in names - rest && ParseInt(e) == Some(v)
        decreases rest
      {
        var name :| name in rest;
        match ParseInt(name) {
          case Some(v) => numeric := numeric + [v];
          case None =>
        }
        rest := rest - {name};
      }
      VersionsMembership(names);
      assert names - rest == names;
      forall v ensures v in (set w | w in numeric) <==> v in Versions(names) {
      }
    }

    /** `get_latest_dir_path`: lists the root, keeps the names that parse, takes their maximum. */
    method GetLatestDirPath() returns (r: Option<string>)
      ensures r == LatestDir()
    {
      if entries == {} {
        return None;
      }
      var numeric := ParseAll(entries);
      VersionsMembership(entries);
      assert forall v :: v in numeric <==> v in Versions(entries) by {
        forall v ensures v in numeric <==> v in (set w | w in numeric) {
        }
      }
      if |numeric| == 0 {
        return None;
      }
      var latest := MaxOfList(numeric);
      ghost var m := Latest(entries).value;
      assert latest <= m by {
        var e :| e in entries && ParseInt(e) == Some(latest);
      }
      assert m <= latest by {
        var e :| e in entries && ParseInt(e) == Some(m);
        assert m in numeric;
      }
      return Some(Join(root, Render(latest)));
    }

    /** `get_latest_model_path`, `get_latest_transformer_path`, `get_latest_target_encoder_path`. */
    function LatestPath(kind: ArtifactKind): (r: Result<string, Error>)
      reads this
      ensures r.Failure? <==> forall e :: e in entries ==> ParseInt(e).None?
      ensures r.Failure? ==> r.error == NotAvailable(kind)
      ensures r.Success? ==> Dirname(r.value) == LatestDir().value && Basename(r.value) == FileName(kind)
    {
      match LatestDir()
      case None => Failure(NotAvailable(kind))
      case Some(dir) =>
        SplitJoin(dir, FileName(kind));
        Success(Join(dir, FileName(kind)))
    }

    /** `get_latest_save_dir_path`: allocates the next version directory and creates it. */
    method GetLatestSaveDirPath() returns (newDir: string)
      modifies this
      ensures entries == AfterSave(old(entries))
      ensures Dirname(newDir) == root && ParseInt(Basename(newDir)) == Some(NextVersion(old(entries)))
      ensures newDir == Join(root, Render(NextVersion(old(entries))))
      ensures LatestDir() == Some(newDir)
    {
      var latestDir := GetLatestDirPath();
      var newDirNum: int;
      if latestDir == None {
        newDirNum := 0;
      } else {
        ghost var m := Latest(entries).value;
        ParseRender(m);
        SplitJoin(root, Render(m));
        var latestDirNum := ParseInt(Basename(latestDir.value)).value;
        newDirNum := latestDirNum + 1;
      }
      assert newDirNum == NextVersion(entries);
      newDir := Join(root, Render(newDirNum));
      ghost var before := entries;
      entries := entries + {Render(newDirNum)};
      SaveThenLatest(before);
      ParseRender(newDirNum);
      SplitJoin(root, Render(newDirNum));
    }

    /** `get_latest_save_paths`: one allocation, all three save paths inside it. */
    method GetLatestSavePaths() returns (paths: SavePaths)
      modifies this
      ensures entries == AfterSave(old(entries))
      ensures forall kind :: Dirname(paths.Get(kind)) == Join(root, Render(NextVersion(old(entries))))
      ensures forall kind :: Basename(paths.Get(kind)) == FileName(kind)
      ensures forall kind :: LatestPath(kind) == Success(paths.Get(kind))
    {
      var saveDir := GetLatestSaveDirPath();
      paths := SavePaths(
        Join(saveDir, TransformerFileName),
        Join(saveDir, ModelFileName),
        Join(saveDir, TargetEncoderFileName));
      forall kind ensures Dirname(paths.Get(kind)) == saveDir && Basename(paths.Get(kind)) == FileName(kind) {
        assert paths.Get(kind) == Join(saveDir, FileName(kind)) by {
          match kind
          case Transformer =>
          case Model =>
          case TargetEncoder =>
        }
        SplitJoin(saveDir, FileName(kind));
      }
    }

    /**
     * `get_latest_save_model_path`, `get_latest_save_transformer_path`,
     * `get_latest_save_target_encoder_path`: each allocates a version of its own.
     */
    method GetLatestSavePath(kind: ArtifactKind) returns (path: string)
      modifies this
      ensures entries == AfterSave(old(entries))
      ensures Dirname(path) == Join(root, Render(NextVersion(old(entries))))
      ensures Basename(path) == FileName(kind)
      ensures LatestPath(kind) == Success(path)
    {
      var saveDir := GetLatestSaveDirPath();
      path := Join(saveDir, FileName(kind));
      SplitJoin(saveDir, FileName(kind));
    }
  }
}
