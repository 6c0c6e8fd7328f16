/**
 * The scaffold as a whole: the five files `LayLa.make_app` writes, first as
 * a map from path (relative to the target directory) to text, then as the
 * writes of the `LayLa` object on a file system made of directories and
 * files.
 */
module Scaffold {
  import opened Strings
  import opened Readers
  import opened SafeNames
  import opened Layla

  /** The parameters of `LayLa` (layla.py:15-23). */
  datatype Request = Request(
    layerName: string,
    contents: seq<string>,
    stackName: string,
    s3Bucket: Option<string>,
    regionName: string,
    targetDir: string)

  const InitFile := "contents/__init__.py"
  const LambdaFile := "contents/layla_lambda.py"
  const RequirementsFile := "contents/requirements.txt"
  const ConfigFile := "samconfig.toml"
  const TemplateFile := "template.yaml"

  /** The five files of the scaffold, by path relative to the target
      directory. */
  function Files(req: Request): (files: map<string, string>)
    ensures files.Keys == {InitFile, LambdaFile, RequirementsFile, ConfigFile, TemplateFile}
    ensures |files| == 5
    ensures files[InitFile] == ""
  {
    FileMap(
      LambdaCode(req.contents),
      RequirementsText(req.contents),
      ConfigCode(req.stackName, req.s3Bucket, req.regionName),
      TemplateCode(SafeName(req.layerName)))
  }

  /** The empty `__init__.py` and four texts under their paths. */
  function FileMap(lambda: string, requirements: string, config: string, template: string): (files: map<string, string>)
    ensures files.Keys == {InitFile, LambdaFile, RequirementsFile, ConfigFile, TemplateFile}
    ensures |files| == 5
    ensures files[InitFile] == "" && files[LambdaFile] == lambda && files[RequirementsFile] == requirements
    ensures files[ConfigFile] == config && files[TemplateFile] == template
  {
    map[InitFile := "", LambdaFile := lambda, RequirementsFile := requirements, ConfigFile := config, TemplateFile := template]
  }

  /** Parameters whose texts keep their line structure: libraries that are
      single non-empty lines without whitespace at their ends, a stack name,
      bucket and region without line breaks, and a layer name without
      whitespace. */
  predicate PlainRequest(req: Request) {
    && SingleLines(req.contents)
    && (forall i :: 0 <= i < |req.contents| ==> req.contents[i] != [] && Trimmed(req.contents[i]))
    && Newline !in req.stackName && Newline !in BucketText(req.s3Bucket) && Newline !in req.regionName
    && (forall i :: 0 <= i < |req.layerName| ==> !IsSpace(req.layerName[i]))
  }

  /** What each file of the scaffold says, read back line by line: the
      handler imports the libraries in order before the fixed body; the
      requirements list them in order (empty without libraries); the
      configuration holds the stack name as stack and prefix, the bucket and
      the region; the template declares the function and the layer under ids
      built from the safe name, the layer depending on the function. */
  lemma ScaffoldContents(req: Request)
    requires PlainRequest(req)
    ensures var files, safe := Files(req), SafeName(req.layerName);
      && Lines(files[LambdaFile]) == ImportLines(req.contents) + HandlerLines
      && (req.contents == [] ==> files[RequirementsFile] == "")
      && (req.contents != [] ==> Lines(files[RequirementsFile]) == req.contents)
      && Setting(files[ConfigFile], "stack_name") == Some(Quoted(req.stackName))
      && Setting(files[ConfigFile], "s3_bucket") == Some(Quoted(BucketText(req.s3Bucket)))
      && Setting(files[ConfigFile], "s3_prefix") == Some(Quoted(req.stackName))
      && Setting(files[ConfigFile], "region") == Some(Quoted(req.regionName))
      && ResourceIds(files[TemplateFile]) == [LambdaId(safe), LayerId(safe)]
      && ValueAfter(Lines(files[TemplateFile]), "        DependsOn: ") == Some(LambdaId(safe))
  {
    var files, safe := Files(req), SafeName(req.layerName);
    assert Lines(files[LambdaFile]) == ImportLines(req.contents) + HandlerLines by {
      PlainLastLibrary(req.contents);
      HandlerFile(req);
    }
    assert req.contents != [] ==> Lines(files[RequirementsFile]) == req.contents by {
      RequirementsFileLines(req);
    }
    assert ResourceIds(files[TemplateFile]) == [LambdaId(safe), LayerId(safe)]
        && ValueAfter(Lines(files[TemplateFile]), "        DependsOn: ") == Some(LambdaId(safe)) by {
      PlainSafeName(req.layerName);
      TemplateFileIds(req);
    }
    assert req.contents == [] ==> files[RequirementsFile] == "" by {
      RequirementsFileLines(req);
    }
    var config := files[ConfigFile];
    assert && Setting(config, "stack_name") == Some(Quoted(req.stackName))
           && Setting(config, "s3_bucket") == Some(Quoted(BucketText(req.s3Bucket)))
           && Setting(config, "s3_prefix") == Some(Quoted(req.stackName))
           && Setting(config, "region") == Some(Quoted(req.regionName)) by {
      ConfigSettings(req.stackName, req.s3Bucket, req.regionName);
    }
  }

  lemma PlainLastLibrary(contents: seq<string>)
    requires forall i :: 0 <= i < |contents| ==> contents[i] != [] && Trimmed(contents[i])
    ensures contents != [] ==> var last := contents[|contents| - 1]; last != [] && !IsSpace(last[|last| - 1])
  {
    if contents != [] {
      assert Trimmed(contents[|contents| - 1]);
    }
  }

  lemma PlainSafeName(layerName: string)
    requires forall i :: 0 <= i < |layerName| ==> !IsSpace(layerName[i])
    ensures var safe := SafeName(layerName); Newline !in safe && (safe == [] || !IsSpace(safe[|safe| - 1]))
  {
    var safe := SafeName(layerName);
    SafeNameVisible(layerName);
    assert forall k :: 0 <= k < |safe| ==> safe[k] != Newline;
  }

  /** The handler depends only on the libraries: it needs them on single
      lines, the last one ending visibly. */
  lemma HandlerFile(req: Request)
    requires SingleLines(req.contents)
    requires req.contents != [] ==> var last := req.contents[|req.contents| - 1]; last != [] && !IsSpace(last[|last| - 1])
    ensures Lines(Files(req)[LambdaFile]) == ImportLines(req.contents) + HandlerLines
  {
    LambdaCodeLines(req.contents);
  }

  /** The requirements depend only on the libraries. */
  lemma RequirementsFileLines(req: Request)
    requires SingleLines(req.contents)
    requires forall i :: 0 <= i < |req.contents| ==> req.contents[i] != [] && Trimmed(req.contents[i])
    ensures req.contents == [] ==> Files(req)[RequirementsFile] == ""
    ensures req.contents != [] ==> Lines(Files(req)[RequirementsFile]) == req.contents
  {
    RequirementsLines(req.contents);
  }

  /** The template depends only on the safe name: it needs it on one line,
      ending visibly. */
  lemma TemplateFileIds(req: Request)
    requires Newline !in SafeName(req.layerName)
    requires var safe := SafeName(req.layerName); safe == [] || !IsSpace(safe[|safe| - 1])
    ensures var safe := SafeName(req.layerName);
      && ResourceIds(Files(req)[TemplateFile]) == [LambdaId(safe), LayerId(safe)]
      && ValueAfter(Lines(Files(req)[TemplateFile]), "        DependsOn: ") == Some(LambdaId(safe))
  {
    TemplateResources(SafeName(req.layerName));
  }

  // ---------------------------------------------------------------------------
  // make_app on a file system
  // ---------------------------------------------------------------------------

  /** The files of a scaffold placed under `root` (`f'{root_dir}/<path>'`). */
  function Placed(root: string, files: map<string, string>): (r: map<string, string>)
    ensures forall p :: p in files ==> root + "/" + p in r && r[root + "/" + p] == files[p]
    ensures forall q :: q in r ==> exists p :: p in files && q == root + "/" + p
  {
    PrefixCancels(root + "/");
    map p | p in files :: root + "/" + p := files[p]
  }

  /** Different paths under the same directory are different. */
  lemma PrefixCancels(dir: string)
    ensures forall p, q {:trigger dir + p, dir + q} :: dir + p == dir + q ==> p == q
  {
    forall p, q | dir + p == dir + q ensures p == q {
      assert p == (dir + p)[|dir|..];
      assert q == (dir + q)[|dir|..];
    }
  }

  /** The directories and files make_app sees and changes: directory paths,
      and the text of each file by path. */
  class Disk {
    var dirs: set<string>
    var files: map<string, string>

    constructor(dirs: set<string>, files: map<string, string>)
      ensures this.dirs == dirs && this.files == files
    {
      this.dirs := dirs;
      this.files := files;
    }

    /** `Path(path).exists()`: a directory or a file is there. */
    predicate Exists(path: string)
      reads this
    {
      path in dirs || path in files
    }

    /** `Path(path).mkdir()`. */
    method Mkdir(path: string)
      modifies this
      ensures dirs == old(dirs) + {path} && files == old(files)
    {
      dirs := dirs + {path};
    }

    /** Opening `path` for writing and writing `text`: the file now holds
        exactly `text`. */
    method Write(path: string, text: string)
      modifies this
      ensures files == old(files)[path := text] && dirs == old(dirs)
    {
      files := files[path := text];
    }
  }

  /** The directories make_app creates under `root`: the root and its
      `contents` directory, each unless something is already there. */
  function Created(root: string, dirs: set<string>, files: map<string, string>): (r: set<string>)
    ensures forall d :: d in r <==> (d == root || d == root + "/contents") && d !in dirs && d !in files
  {
    assert |root + "/contents"| > |root|;
    (if root in dirs || root in files then {} else {root}) +
    (if root + "/contents" in dirs || root + "/contents" in files then {} else {root + "/contents"})
  }

  /** `LayLa` (layla.py:10-150): the parameters as fields; building one
      scaffolds the app at once. */
  class LayLa {
    const layerName: string
    const contents: seq<string>
    const stackName: string
    const s3Bucket: Option<string>
    const regionName: string
    const targetDir: string
    var newline: string

    function Params(): Request
    {
      Request(layerName, contents, stackName, s3Bucket, regionName, targetDir)
    }

    /** `__init__` (layla.py:15-48): keeps the parameters and calls
        `make_app`. */
    constructor(disk: Disk, layerName: string, contents: seq<string>, stackName: string,
                s3Bucket: Option<string> := None, regionName: string := "eu-central-1", targetDir: string := ".")
      modifies disk
      ensures Params() == Request(layerName, contents, stackName, s3Bucket, regionName, targetDir)
      ensures newline == [Newline]
      ensures disk.files == old(disk.files) + Placed(targetDir, Files(Params()))
      ensures disk.dirs == old(disk.dirs) + Created(targetDir, old(disk.dirs), old(disk.files))
    {
      this.layerName := layerName;
      this.contents := contents;
      this.stackName := stackName;
      this.s3Bucket := s3Bucket;
      this.regionName := regionName;
      this.targetDir := targetDir;
      new;
      MakeApp(disk);
    }

    /** `make_app` (layla.py:50-150): creates the target directory and its
        `contents` directory when missing, then writes the five files of the
        scaffold under it, replacing files already there. */
    method MakeApp(disk: Disk)
      modifies this`newline, disk
      ensures newline == [Newline]
      ensures disk.files == old(disk.files) + Placed(targetDir, Files(Params()))
      ensures disk.dirs == old(disk.dirs) + Created(targetDir, old(disk.dirs), old(disk.files))
    {
      var root := targetDir;
      EnsureDirs(disk, root);
      newline := [Newline];
      var files := Files(Params());
      WriteScaffold(disk, root, files);
    }
  }

  /** The directory steps of make_app (layla.py:57-62): create the root,
      then its `contents` directory, each only when nothing is there. */
  method EnsureDirs(disk: Disk, root: string)
    modifies disk
    ensures disk.files == old(disk.files)
    ensures disk.dirs == old(disk.dirs) + Created(root, old(disk.dirs), old(disk.files))
  {
    if !disk.Exists(root) {
      disk.Mkdir(root);
    }
    assert |root + "/contents"| > |root|;
    if !disk.Exists(root + "/contents") {
      disk.Mkdir(root + "/contents");
    }
  }

  /** The five writes of make_app (layla.py:64-66, 132-150), in its order:
      `__init__.py`, the handler, the requirements, the configuration and
      the template. */
  method WriteScaffold(disk: Disk, root: string, files: map<string, string>)
    requires files.Keys == {InitFile, LambdaFile, RequirementsFile, ConfigFile, TemplateFile}
    modifies disk
    ensures disk.files == old(disk.files) + Placed(root, files)
    ensures disk.dirs == old(disk.dirs)
  {
    ghost var files0 := disk.files;
    disk.Write(root + "/" + InitFile, files[InitFile]);
    disk.Write(root + "/" + LambdaFile, files[LambdaFile]);
    disk.Write(root + "/" + RequirementsFile, files[RequirementsFile]);
    disk.Write(root + "/" + ConfigFile, files[ConfigFile]);
    disk.Write(root + "/" + TemplateFile, files[TemplateFile]);
    PlacedScaffold(root, files);
    FiveWrites(files0, root + "/" + InitFile, root + "/" + LambdaFile, root + "/" + RequirementsFile,
      root + "/" + ConfigFile, root + "/" + TemplateFile,
      files[InitFile], files[LambdaFile], files[RequirementsFile], files[ConfigFile], files[TemplateFile]);
  }

  /** Five writes one after another add their files to the map. */
  lemma FiveWrites<K, V>(m: map<K, V>, k1: K, k2: K, k3: K, k4: K, k5: K, v1: V, v2: V, v3: V, v4: V, v5: V)
    ensures m[k1 := v1][k2 := v2][k3 := v3][k4 := v4][k5 := v5] ==
      m + map[k1 := v1, k2 := v2, k3 := v3, k4 := v4, k5 := v5]
  {
  }

  /** The scaffold under `root` is the five writes of make_app. */
  lemma PlacedScaffold(root: string, files: map<string, string>)
    requires files.Keys == {InitFile, LambdaFile, RequirementsFile, ConfigFile, TemplateFile}
    ensures Placed(root, files) == map[
      root + "/" + InitFile := files[InitFile],
      root + "/" + LambdaFile := files[LambdaFile],
      root + "/" + RequirementsFile := files[RequirementsFile],
      root + "/" + ConfigFile := files[ConfigFile],
      root + "/" + TemplateFile := files[TemplateFile]
    ]
  {
    PlacedKeys(root, files);
  }

  lemma PlacedKeys(root: string, files: map<string, string>)
    requires files.Keys == {InitFile, LambdaFile, RequirementsFile, ConfigFile, TemplateFile}
    ensures Placed(root, files).Keys ==
      {root + "/" + InitFile, root + "/" + LambdaFile, root + "/" + RequirementsFile, root + "/" + ConfigFile, root + "/" + TemplateFile}
  {
    var placed := Placed(root, files);
    forall q | q in placed
      ensures q in {root + "/" + InitFile, root + "/" + LambdaFile, root + "/" + RequirementsFile, root + "/" + ConfigFile, root + "/" + TemplateFile}
    {
      var p :| p in files && q == root + "/" + p;
    }
  }
}
