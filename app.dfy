/**
  The application bootstrap of `alx/app.py`: the runtime environment chosen
  from the `--env` flag, the directory layout of `Paths`, and
  `parse_config`, which binds every key of a configuration section onto an
  object as a typed attribute.

  The object is modelled as its attribute map. A configuration section is
  the sequence of (key, raw value) pairs that iterating the section yields,
  `[DEFAULT]` entries already merged in and `%` interpolation already done.
 */
module App {
  import opened Wrappers
  import opened Text

  // ---------------------------------------------------------------------
  // Environment

  const TestAliases: set<string> := {"test", "uat", "tst"}
  const ProdAliases: set<string> := {"prd", "prod", "production"}

  /** The environment the `--env` flag selects; argparse supplies `dev` when it is absent. */
  function Environment(flag: string): (env: string)
    ensures env == "dev" || env == "test" || env == "prod"
    ensures env == "test" <==> flag in TestAliases
    ensures env == "prod" <==> flag in ProdAliases
  {
    if flag in TestAliases then "test"
    else if flag in ProdAliases then "prod"
    else "dev"
  }

  predicate IsDev(env: string) { env == "dev" }
  predicate IsTest(env: string) { env == "test" }
  predicate IsProd(env: string) { env == "prod" }

  /** Whatever the flag, exactly one of `is_dev`, `is_test`, `is_prod` holds. */
  lemma ExactlyOneEnvironment(flag: string)
    ensures var env := Environment(flag);
      (if IsDev(env) then 1 else 0) + (if IsTest(env) then 1 else 0) + (if IsProd(env) then 1 else 0) == 1
    ensures IsDev(Environment(flag)) <==> flag !in TestAliases && flag !in ProdAliases
  {
  }

  // ---------------------------------------------------------------------
  // Paths

  datatype Paths = Paths(
    root: string, bin: string, data: string, etc: string, log: string,
    logfile: string, scripts: string, top: string, config: string)

  /** `os.path.join(a, b)` on POSIX. */
  function PathJoin(a: string, b: string): string {
    if StartsWith(b, "/") then b
    else if a == [] || EndsWith(a, "/") then a + b
    else a + "/" + b
  }

  /**
    The layout `Paths.__init__` derives. `root` is the absolute path two
    levels above the script's directory, `basename` the name of that
    directory; an empty `inifile` stands for `None`.
   */
  function MakePaths(root: string, basename: string, appname: string, inifile: string): Paths {
    var log := LogPath(root, basename);
    Paths(
      root := root,
      bin := PathJoin(root, "bin"),
      data := DataPath(root, basename),
      etc := PathJoin(root, "etc"),
      log := log,
      logfile := PathJoin(log, appname + ".log"),
      scripts := PathJoin(root, "scripts"),
      top := PathJoin(PathJoin(root, "scripts"), basename),
      config := ConfigFile(root, appname, inifile))
  }

  function DataPath(root: string, basename: string): string {
    PathJoin(PathJoin(root, "data"), basename)
  }

  function LogPath(root: string, basename: string): string {
    PathJoin(PathJoin(root, "log"), basename)
  }

  function ConfigFile(root: string, appname: string, inifile: string): string {
    var etc := PathJoin(root, "etc");
    if inifile == "" then PathJoin(etc, appname + ".ini") else PathJoin(etc, inifile)
  }

  lemma EndsWithSlash(s: string)
    requires s != []
    ensures EndsWith(s, "/") <==> s[|s| - 1] == '/'
  {
    assert s[|s| - 1..] == [s[|s| - 1]];
  }

  /** Joining onto a directory that does not end in `/` inserts exactly one `/`. */
  lemma JoinInsertsSlash(a: string, b: string)
    requires a != [] && a[|a| - 1] != '/'
    requires b == [] || b[0] != '/'
    ensures PathJoin(a, b) == a + "/" + b
    ensures b != [] ==> (a + "/" + b)[|a + "/" + b| - 1] == b[|b| - 1]
  {
    EndsWithSlash(a);
    if b != [] {
      assert b[..1] == [b[0]];
    }
  }

  /** A directory under the root, and a file under that directory, each joined with one `/`. */
  lemma DirLayout(root: string, dir: string, file: string)
    requires root != [] && root[|root| - 1] != '/'
    requires dir != [] && dir[0] != '/' && dir[|dir| - 1] != '/'
    requires file == [] || file[0] != '/'
    ensures PathJoin(root, dir) == root + ("/" + dir)
    ensures PathJoin(PathJoin(root, dir), file) == root + ("/" + dir + "/") + file
  {
    JoinInsertsSlash(root, dir);
    AppendAssoc(root, "/", dir);
    var sub := root + ("/" + dir);
    assert sub[|sub| - 1] == dir[|dir| - 1];
    JoinInsertsSlash(sub, file);
    AppendAssoc(root, "/" + dir, "/");
    AppendAssoc(root, "/" + dir + "/", file);
  }

  /** `bin`, `data` and `top` sit under the root; `data` is `root/data/<basename>`. */
  lemma PathsDirectories(root: string, basename: string, appname: string, inifile: string)
    requires root != [] && root[|root| - 1] != '/'
    requires forall i :: 0 <= i < |basename| ==> basename[i] != '/'
    ensures var p := MakePaths(root, basename, appname, inifile);
      && p.bin == root + "/bin"
      && p.data == root + "/data/" + basename
      && p.top == root + "/scripts/" + basename
  {
    assert basename == [] || basename[0] != '/';
    BinLayout(root);
    DataLayout(root, basename);
    TopLayout(root, basename);
  }

  lemma BinLayout(root: string)
    requires root != [] && root[|root| - 1] != '/'
    ensures PathJoin(root, "bin") == root + "/bin"
  {
    DirLayout(root, "bin", "");
    assert "/" + "bin" == "/bin";
  }

  lemma DataLayout(root: string, basename: string)
    requires root != [] && root[|root| - 1] != '/'
    requires basename == [] || basename[0] != '/'
    ensures DataPath(root, basename) == root + "/data/" + basename
  {
    DirLayout(root, "data", basename);
    assert "/" + "data" + "/" == "/data/";
  }

  lemma TopLayout(root: string, basename: string)
    requires root != [] && root[|root| - 1] != '/'
    requires basename == [] || basename[0] != '/'
    ensures PathJoin(PathJoin(root, "scripts"), basename) == root + "/scripts/" + basename
  {
    DirLayout(root, "scripts", basename);
    assert "/" + "scripts" + "/" == "/scripts/";
  }

  lemma LogPathLayout(root: string, basename: string)
    requires root != [] && root[|root| - 1] != '/'
    requires basename == [] || basename[0] != '/'
    ensures LogPath(root, basename) == root + "/log/" + basename
  {
    DirLayout(root, "log", basename);
    assert "/" + "log" + "/" == "/log/";
  }

  lemma JoinOntoSlash(a: string, b: string)
    requires a != [] && a[|a| - 1] == '/'
    requires b != [] && b[0] != '/'
    ensures PathJoin(a, b) == a + b
  {
    EndsWithSlash(a);
    assert b[..1] == [b[0]];
  }

  lemma LogFileLayout(log: string, appname: string)
    requires log != []
    requires appname == [] || appname[0] != '/'
    ensures PathJoin(log, appname + ".log")
      == log + (if log[|log| - 1] == '/' then "" else "/") + appname + ".log"
  {
    var file := appname + ".log";
    assert file[0] != '/';
    if log[|log| - 1] == '/' {
      JoinOntoSlash(log, file);
    } else {
      JoinInsertsSlash(log, file);
    }
  }

  /** `log` is `root/log/<basename>` and `logfile` is `<appname>.log` inside it. */
  lemma PathsLogLayout(root: string, basename: string, appname: string, inifile: string)
    requires root != [] && root[|root| - 1] != '/'
    requires basename == [] || (basename[0] != '/' && basename[|basename| - 1] != '/')
    requires appname == [] || appname[0] != '/'
    ensures var p := MakePaths(root, basename, appname, inifile);
      && p.log == root + "/log/" + basename
      && p.logfile == p.log + (if basename == [] then "" else "/") + appname + ".log"
  {
    LogPathLayout(root, basename);
    var log := root + "/log/" + basename;
    assert log[|log| - 1] == (if basename == [] then '/' else basename[|basename| - 1]);
    LogFileLayout(log, appname);
  }

  /** `config` is `root/etc/<appname>.ini`, or `root/etc/<inifile>` when an ini file is named. */
  lemma PathsConfigLayout(root: string, basename: string, appname: string, inifile: string)
    requires root != [] && root[|root| - 1] != '/'
    requires appname == [] || appname[0] != '/'
    requires inifile == [] || inifile[0] != '/'
    ensures MakePaths(root, basename, appname, inifile).config
      == root + "/etc/" + (if inifile == [] then appname + ".ini" else inifile)
  {
    var file := if inifile == [] then appname + ".ini" else inifile;
    assert file != [] && file[0] != '/';
    DirLayout(root, "etc", file);
    assert "/" + "etc" + "/" == "/etc/";
    assert ConfigFile(root, appname, inifile) == PathJoin(PathJoin(root, "etc"), file);
  }

  /**
    Under a root ending in `/` (as `/` itself), a directory and a file
    inside it are joined with one `/` each; `dirSlash` is the directory
    with its `/`.
   */
  lemma SlashRootDirLayout(root: string, dir: string, dirSlash: string, file: string)
    requires root != [] && root[|root| - 1] == '/'
    requires dir != [] && dir[0] != '/' && dir[|dir| - 1] != '/'
    requires dirSlash == dir + "/"
    requires file == [] || file[0] != '/'
    ensures PathJoin(root, dir) == root + dir
    ensures PathJoin(PathJoin(root, dir), file) == root + dirSlash + file
  {
    JoinOntoSlash(root, dir);
    var sub := root + dir;
    assert sub[|sub| - 1] == dir[|dir| - 1];
    JoinInsertsSlash(sub, file);
    AppendAssoc(root, dir, "/");
  }

  /** `data`, `log` and `top` under a root ending in `/`. */
  lemma SlashRootSubdirs(root: string, basename: string)
    requires root != [] && root[|root| - 1] == '/'
    requires basename == [] || basename[0] != '/'
    ensures DataPath(root, basename) == root + "data/" + basename
    ensures LogPath(root, basename) == root + "log/" + basename
    ensures PathJoin(PathJoin(root, "scripts"), basename) == root + "scripts/" + basename
  {
    SlashRootDirLayout(root, "data", "data/", basename);
    SlashRootDirLayout(root, "log", "log/", basename);
    SlashRootDirLayout(root, "scripts", "scripts/", basename);
  }

  /** `config` under a root ending in `/`. */
  lemma SlashRootConfig(root: string, appname: string, inifile: string)
    requires root != [] && root[|root| - 1] == '/'
    requires appname == [] || appname[0] != '/'
    requires inifile == [] || inifile[0] != '/'
    ensures ConfigFile(root, appname, inifile) == root + "etc/" + (if inifile == [] then appname + ".ini" else inifile)
  {
    var file := if inifile == [] then appname + ".ini" else inifile;
    assert file != [] && file[0] != '/';
    SlashRootDirLayout(root, "etc", "etc/", file);
  }

  /**
    With a root ending in `/`, which `os.path.abspath` gives only for `/`
    itself, each directory is joined onto it without a doubled `/`.
   */
  lemma SlashRootLayout(root: string, basename: string, appname: string, inifile: string)
    requires root != [] && root[|root| - 1] == '/'
    requires basename == [] || basename[0] != '/'
    requires appname == [] || appname[0] != '/'
    requires inifile == [] || inifile[0] != '/'
    ensures var p := MakePaths(root, basename, appname, inifile);
      && p.bin == root + "bin" && p.data == root + "data/" + basename && p.log == root + "log/" + basename
      && p.top == root + "scripts/" + basename
      && p.config == root + "etc/" + (if inifile == [] then appname + ".ini" else inifile)
  {
    JoinOntoSlash(root, "bin");
    SlashRootSubdirs(root, basename);
    SlashRootConfig(root, appname, inifile);
  }

  /** An absolute ini file name replaces the whole configuration path, as `os.path.join` does. */
  lemma AbsoluteIniFile(root: string, basename: string, appname: string, inifile: string)
    requires StartsWith(inifile, "/")
    ensures MakePaths(root, basename, appname, inifile).config == inifile
  {
    assert inifile != "";
  }

  // ---------------------------------------------------------------------
  // Typed values and the attribute map

  /**
    The value `parse_config` binds. Float and JSON parsing are not modelled:
    their payload is the literal text that was accepted.
   */
  datatype TypedValue =
    | Bool(b: bool)
    | Int(i: int)
    | Float(literal: string)
    | Json(text: string)
    | Str(s: string)

  /** An attribute of the target object: a bound value, or the app's `Paths` object. */
  datatype Attr = Value(v: TypedValue) | PathsAttr(paths: Paths)

  /** What `hasattr(obj, 'paths')` and `obj.paths.data` find on the object. */
  datatype PathsLookup = NoPaths | DataDir(data: string) | NotPaths

  function LookupPaths(attrs: map<string, Attr>): PathsLookup {
    if "paths" !in attrs then NoPaths
    else match attrs["paths"]
      case PathsAttr(p) => DataDir(p.data)
      case Value(_) => NotPaths
  }

  /** The exceptions binding can raise; the key named is the one being bound. */
  datatype ErrorKind =
    | AttributeError   // `obj.paths` exists but has no `data`
    | JsonDecodeError  // `json.loads` rejected a value starting with `[` or `{`
  datatype Failure = Failure(key: string, kind: ErrorKind)

  /** What binding one raw value does. */
  datatype Step = Set(value: TypedValue) | Skip | Fail(kind: ErrorKind)

  const DataToken := "$data"
  const BoolLiterals: set<string> := {"True", "False", "true", "false"}

  /**
    The type cascade: `$data` substitution, the four boolean literals,
    `int()`, `float()`, JSON for a value starting with `[` or `{`, and
    otherwise the raw string. `jsonOk` is whether `json.loads` accepts a text.
   */
  function Infer(raw: string, paths: PathsLookup, jsonOk: string -> bool): Step {
    if Contains(raw, DataToken) then
      match paths
      case NoPaths => Skip
      case NotPaths => Fail(AttributeError)
      case DataDir(d) => Set(Str(Replace(raw, DataToken, d)))
    else if raw in BoolLiterals then Set(Bool(raw == "True" || raw == "true"))
    else if IsIntLiteral(raw) then Set(Int(IntLiteralValue(raw)))
    else if IsFloatLiteral(raw) then Set(Float(raw))
    else if StartsWith(raw, "[") || StartsWith(raw, "{") then
      (if jsonOk(raw) then Set(Json(raw)) else Fail(JsonDecodeError))
    else Set(Str(raw))
  }

  /** The outcome of binding a whole section: the attributes, and the exception if one was raised. */
  datatype Bound = Bound(attrs: map<string, Attr>, failure: Option<Failure>)

  /** Binding a section key by key, in order, stopping at the first exception. */
  function BindAll(attrs: map<string, Attr>, section: seq<(string, string)>, jsonOk: string -> bool): Bound
    decreases |section|
  {
    if section == [] then Bound(attrs, None)
    else
      var key := section[0].0;
      match Infer(section[0].1, LookupPaths(attrs), jsonOk)
      case Fail(kind) => Bound(attrs, Some(Failure(key, kind)))
      case Skip => BindAll(attrs, section[1..], jsonOk)
      case Set(v) => BindAll(attrs[key := Value(v)], section[1..], jsonOk)
  }

  function Keys(section: seq<(string, string)>): set<string> {
    set j | 0 <= j < |section| :: section[j].0
  }

  /** The object `parse_config` binds onto. */
  class Target {
    var attrs: map<string, Attr>

    constructor (attrs0: map<string, Attr>)
      ensures attrs == attrs0
    {
      attrs := attrs0;
    }
  }

  /** `parse_config(obj, section)`; the result is the exception raised, if any. */
  method ParseConfig(obj: Target, section: seq<(string, string)>, jsonOk: string -> bool)
    returns (failure: Option<Failure>)
    modifies obj
    ensures Bound(obj.attrs, failure) == BindAll(old(obj.attrs), section, jsonOk)
  {
    var i := 0;
    while i < |section|
      invariant 0 <= i <= |section|
      invariant BindAll(old(obj.attrs), section, jsonOk) == BindAll(obj.attrs, section[i..], jsonOk)
    {
      assert section[i..][1..] == section[i + 1..];
      var (key, value) := section[i];
      if Contains(value, DataToken) {
        if "paths" in obj.attrs {
          match obj.attrs["paths"]
          case PathsAttr(p) =>
            obj.attrs := obj.attrs[key := Value(Str(Replace(value, DataToken, p.data)))];
          case Value(_) =>
            return Some(Failure(key, AttributeError));
        } else {
          i := i + 1;
          continue;
        }
      } else if value in BoolLiterals {
        obj.attrs := obj.attrs[key := Value(Bool(value == "True" || value == "true"))];
      } else if IsIntLiteral(value) {
        obj.attrs := obj.attrs[key := Value(Int(IntLiteralValue(value)))];
      } else if IsFloatLiteral(value) {
        obj.attrs := obj.attrs[key := Value(Float(value))];
      } else if StartsWith(value, "[") || StartsWith(value, "{") {
        if !jsonOk(value) {
          return Some(Failure(key, JsonDecodeError));
        }
        obj.attrs := obj.attrs[key := Value(Json(value))];
      } else {
        obj.attrs := obj.attrs[key := Value(Str(value))];
      }
      i := i + 1;
    }
    failure := None;
  }

  /**
    The constructor's use of `parse_config`: the app's own configuration is
    bound only when the file was read and has a section named by the
    environment.
   */
  method BindEnvironmentSection(
    app: Target, config: Option<map<string, seq<(string, string)>>>, env: string, jsonOk: string -> bool)
    returns (failure: Option<Failure>)
    modifies app
    ensures config.Some? && env in config.value ==>
      Bound(app.attrs, failure) == BindAll(old(app.attrs), config.value[env], jsonOk)
    ensures !(config.Some? && env in config.value) ==> app.attrs == old(app.attrs) && failure == None
  {
    failure := None;
    if config.Some? && env in config.value {
      failure := ParseConfig(app, config.value[env], jsonOk);
    }
  }

  // ---------------------------------------------------------------------
  // Properties of the cascade

  lemma NoDollarNoToken(s: string)
    requires forall i :: 0 <= i < |s| ==> s[i] != '$'
    ensures !Contains(s, DataToken)
    decreases |s|
  {
    if |s| >= |DataToken| {
      assert s[..|DataToken|][0] == s[0];
      NoDollarNoToken(s[1..]);
    }
  }

  /** Only the four exact literals bind as booleans, `True`/`true` as true. */
  lemma BooleanLiteralsOnly(raw: string, paths: PathsLookup, jsonOk: string -> bool)
    ensures var r := Infer(raw, paths, jsonOk);
      (r.Set? && r.value.Bool?) <==> raw in BoolLiterals
    ensures raw in BoolLiterals ==> Infer(raw, paths, jsonOk) == Set(Bool(raw == "True" || raw == "true"))
  {
    if raw in BoolLiterals {
      BoolLiteralHasNoToken(raw);
    }
  }

  lemma BoolLiteralHasNoToken(raw: string)
    requires raw in BoolLiterals
    ensures !Contains(raw, DataToken)
  {
    assert raw == "True" || raw == "False" || raw == "true" || raw == "false";
    assert forall i :: 0 <= i < |raw| ==> raw[i] != '$';
    NoDollarNoToken(raw);
  }

  lemma DecimalHasNoToken(n: int)
    ensures !Contains(IntToDecimal(n), DataToken)
  {
    var s := IntToDecimal(n);
    var digits := NatToDecimal(if n < 0 then -n else n);
    assert s == digits || s == "-" + digits;
    assert forall i :: 0 <= i < |s| ==> s[i] == '-' || IsDigit(s[i]);
    NoDollarNoToken(s);
  }

  lemma DecimalIsNotBoolean(n: int)
    ensures IntToDecimal(n) !in BoolLiterals
  {
    var s := IntToDecimal(n);
    assert s[0] == '-' || IsDigit(s[0]);
  }

  /**
    Every integer written in decimal within the digit limit binds as that
    integer, never as a boolean or a float.
   */
  lemma DecimalBindsAsInt(n: int, paths: PathsLookup, jsonOk: string -> bool)
    requires DigitCount(n) <= MaxStrDigits
    ensures Infer(IntToDecimal(n), paths, jsonOk) == Set(Int(n))
  {
    IntLiteralRoundTrip(n);
    DecimalHasNoToken(n);
    DecimalIsNotBoolean(n);
  }

  /** An integer written with more digits than `int()` converts falls through to `float()`. */
  lemma LongDecimalBindsAsFloat(n: int, paths: PathsLookup, jsonOk: string -> bool)
    requires DigitCount(n) > MaxStrDigits
    ensures Infer(IntToDecimal(n), paths, jsonOk) == Set(Float(IntToDecimal(n)))
  {
    LongDecimalIsFloat(n);
    DecimalHasNoToken(n);
    DecimalIsNotBoolean(n);
  }

  /**
    Without `$data`, a value is bound as a string exactly when it is no
    boolean literal, no `int()` or `float()` literal and starts with neither
    `[` nor `{`; the string is then the raw value, unchanged.
   */
  lemma StringFallbackIsRaw(raw: string, paths: PathsLookup, jsonOk: string -> bool)
    requires !Contains(raw, DataToken)
    ensures var r := Infer(raw, paths, jsonOk);
      (r.Set? && r.value.Str?) <==>
      (raw !in BoolLiterals && !IsIntLiteral(raw) && !IsFloatLiteral(raw)
       && !StartsWith(raw, "[") && !StartsWith(raw, "{"))
    ensures var r := Infer(raw, paths, jsonOk);
      r.Set? && r.value.Str? ==> r.value.s == raw
  {
    if raw in BoolLiterals {
    } else if IsIntLiteral(raw) {
    } else if IsFloatLiteral(raw) {
    } else if StartsWith(raw, "[") || StartsWith(raw, "{") {
    } else {
    }
  }

  /** `$data` decides first: without `paths` the key is skipped, with it the value is substituted text. */
  lemma DataTokenFirst(raw: string, paths: PathsLookup, jsonOk: string -> bool)
    requires Contains(raw, DataToken)
    ensures paths.NoPaths? ==> Infer(raw, paths, jsonOk) == Skip
    ensures paths.DataDir? ==> Infer(raw, paths, jsonOk) == Set(Str(Replace(raw, DataToken, paths.data)))
    ensures paths.NotPaths? ==> Infer(raw, paths, jsonOk) == Fail(AttributeError)
  {
  }

  /**
    A value that starts with a letter other than `i`/`n` (so neither a
    number nor `inf`/`nan`), that is no boolean literal and has no `$`, binds
    as the raw string.
   */
  lemma WordBindsAsString(raw: string, paths: PathsLookup, jsonOk: string -> bool)
    requires raw != [] && 'a' <= ToLower(raw[0]) <= 'z' && ToLower(raw[0]) != 'i' && ToLower(raw[0]) != 'n'
    requires !IsSpace(raw[|raw| - 1])
    requires forall i :: 0 <= i < |raw| ==> raw[i] != '$'
    requires raw !in BoolLiterals
    ensures Infer(raw, paths, jsonOk) == Set(Str(raw))
  {
    NoDollarNoToken(raw);
    LetterLedNotNumeric(raw);
    assert raw[..1] == [raw[0]];
  }

  /** `TRUE` is not one of the boolean literals and binds as the string `TRUE`; `1` binds as 1. */
  lemma UpperCaseTrueIsString(paths: PathsLookup, jsonOk: string -> bool)
    ensures Infer("TRUE", paths, jsonOk) == Set(Str("TRUE"))
    ensures Infer("1", paths, jsonOk) == Set(Int(1))
  {
    WordBindsAsString("TRUE", paths, jsonOk);
    DecimalBindsAsInt(1, paths, jsonOk);
    assert IntToDecimal(1) == "1";
  }

  /**
    Without `$data`, a value that is no boolean, `int()` or `float()` literal
    and starts with `[` or `{` binds as JSON when `json.loads` accepts it and
    raises `JSONDecodeError` otherwise.
   */
  lemma JsonBranch(raw: string, paths: PathsLookup, jsonOk: string -> bool)
    requires !Contains(raw, DataToken) && raw !in BoolLiterals
    requires !IsIntLiteral(raw) && !IsFloatLiteral(raw)
    requires StartsWith(raw, "[") || StartsWith(raw, "{")
    ensures jsonOk(raw) ==> Infer(raw, paths, jsonOk) == Set(Json(raw))
    ensures !jsonOk(raw) ==> Infer(raw, paths, jsonOk) == Fail(JsonDecodeError)
  {
  }

  /** A `$data` value on an object without `paths` is skipped: no attribute changes and nothing is raised. */
  lemma DataWithoutPathsSkips(attrs: map<string, Attr>, key: string, raw: string, jsonOk: string -> bool)
    requires Contains(raw, DataToken) && "paths" !in attrs
    ensures BindAll(attrs, [(key, raw)], jsonOk) == Bound(attrs, None)
  {
    assert [(key, raw)][1..] == [];
  }

  /**
    A value `$data` followed by a tail with no further `$` binds as the data
    directory followed by that tail.
   */
  lemma DataPathSubstitution(tail: string, d: string, jsonOk: string -> bool)
    requires forall i :: 0 <= i < |tail| ==> tail[i] != '$'
    ensures Infer(DataToken + tail, DataDir(d), jsonOk) == Set(Str(d + tail))
  {
    var raw := DataToken + tail;
    assert raw[..|DataToken|] == DataToken;
    assert raw[|DataToken|..] == tail;
    NoDollarNoToken(tail);
    ReplaceAbsent(tail, DataToken, d);
  }

  // ---------------------------------------------------------------------
  // Properties of binding a section

  /** Binding touches only keys of the section; every other attribute keeps its value. */
  lemma {:induction false} BindLeavesOtherKeys(
    attrs: map<string, Attr>, section: seq<(string, string)>, jsonOk: string -> bool, k: string)
    requires k !in Keys(section)
    ensures k in BindAll(attrs, section, jsonOk).attrs <==> k in attrs
    ensures k in attrs ==> BindAll(attrs, section, jsonOk).attrs[k] == attrs[k]
    decreases |section|
  {
    if section != [] {
      assert Keys(section[1..]) <= Keys(section) by {
        forall j | 0 <= j < |section[1..]| ensures section[1..][j].0 in Keys(section) {
          assert section[1..][j] == section[j + 1];
        }
      }
      assert section[0].0 in Keys(section);
      var key := section[0].0;
      match Infer(section[0].1, LookupPaths(attrs), jsonOk)
      case Fail(_) =>
      case Skip => BindLeavesOtherKeys(attrs, section[1..], jsonOk, k);
      case Set(v) => BindLeavesOtherKeys(attrs[key := Value(v)], section[1..], jsonOk, k);
    }
  }

  /** No attribute appears that is not an old attribute or a key of the section. */
  lemma {:induction false} BindAddsOnlySectionKeys(
    attrs: map<string, Attr>, section: seq<(string, string)>, jsonOk: string -> bool)
    ensures BindAll(attrs, section, jsonOk).attrs.Keys <= attrs.Keys + Keys(section)
    decreases |section|
  {
    if section != [] {
      assert Keys(section) == {section[0].0} + Keys(section[1..]) by {
        forall j | 0 <= j < |section[1..]| ensures section[1..][j].0 in Keys(section) {
          assert section[1..][j] == section[j + 1];
        }
        forall j | 1 <= j < |section| ensures section[j].0 in Keys(section[1..]) {
          assert section[j] == section[1..][j - 1];
        }
      }
      var key := section[0].0;
      match Infer(section[0].1, LookupPaths(attrs), jsonOk)
      case Fail(_) =>
      case Skip => BindAddsOnlySectionKeys(attrs, section[1..], jsonOk);
      case Set(v) => BindAddsOnlySectionKeys(attrs[key := Value(v)], section[1..], jsonOk);
    }
  }

  /**
    What a section binds when the `paths` lookup is fixed: `None` when an
    exception is raised, otherwise the attributes it sets (later keys win).
   */
  function Bindings(section: seq<(string, string)>, paths: PathsLookup, jsonOk: string -> bool)
    : Option<map<string, Attr>>
    decreases |section|
  {
    if section == [] then Some(map[])
    else
      match Infer(section[0].1, paths, jsonOk)
      case Fail(_) => None
      case Skip => Bindings(section[1..], paths, jsonOk)
      case Set(v) =>
        match Bindings(section[1..], paths, jsonOk)
        case None => None
        case Some(m) => Some(map[section[0].0 := Value(v)] + m)
  }

  lemma {:induction false} BindingsKeys(section: seq<(string, string)>, paths: PathsLookup, jsonOk: string -> bool)
    requires Bindings(section, paths, jsonOk).Some?
    ensures Bindings(section, paths, jsonOk).value.Keys <= Keys(section)
    decreases |section|
  {
    if section != [] {
      assert section[0].0 in Keys(section);
      assert Keys(section[1..]) <= Keys(section) by {
        forall j | 0 <= j < |section[1..]| ensures section[1..][j].0 in Keys(section) {
          assert section[1..][j] == section[j + 1];
        }
      }
      match Infer(section[0].1, paths, jsonOk)
      case Fail(_) =>
      case Skip => BindingsKeys(section[1..], paths, jsonOk);
      case Set(v) => BindingsKeys(section[1..], paths, jsonOk);
    }
  }

  lemma UpdateThenOverride(attrs: map<string, Attr>, key: string, a: Attr, m: map<string, Attr>)
    ensures attrs[key := a] + m == attrs + (map[key := a] + m)
  {
  }

  /**
    When the section does not rebind `paths`, binding it overrides the old
    attributes with a map that depends only on the section.
   */
  lemma {:induction false} BindAllIsOverride(
    attrs: map<string, Attr>, section: seq<(string, string)>, jsonOk: string -> bool)
    requires "paths" !in Keys(section)
    ensures var b := Bindings(section, LookupPaths(attrs), jsonOk);
      && (BindAll(attrs, section, jsonOk).failure == None <==> b.Some?)
      && (b.Some? ==> BindAll(attrs, section, jsonOk).attrs == attrs + b.value)
    decreases |section|
  {
    if section != [] {
      assert "paths" !in Keys(section[1..]) by {
        forall j | 0 <= j < |section[1..]| ensures section[1..][j].0 != "paths" {
          assert section[1..][j] == section[j + 1];
        }
      }
      var key := section[0].0;
      assert key in Keys(section);
      var paths := LookupPaths(attrs);
      match Infer(section[0].1, paths, jsonOk)
      case Fail(_) =>
      case Skip => BindAllIsOverride(attrs, section[1..], jsonOk);
      case Set(v) =>
        var attrs' := attrs[key := Value(v)];
        assert LookupPaths(attrs') == paths;
        BindAllIsOverride(attrs', section[1..], jsonOk);
        var rest := Bindings(section[1..], paths, jsonOk);
        if rest.Some? {
          UpdateThenOverride(attrs, key, Value(v), rest.value);
        }
    }
  }

  /** Binding the same section twice gives what binding it once gives. */
  lemma BindIdempotent(attrs: map<string, Attr>, section: seq<(string, string)>, jsonOk: string -> bool)
    requires "paths" !in Keys(section)
    requires BindAll(attrs, section, jsonOk).failure == None
    ensures BindAll(BindAll(attrs, section, jsonOk).attrs, section, jsonOk) == BindAll(attrs, section, jsonOk)
  {
    var paths := LookupPaths(attrs);
    BindAllIsOverride(attrs, section, jsonOk);
    var m := Bindings(section, paths, jsonOk).value;
    var once := attrs + m;
    BindingsKeys(section, paths, jsonOk);
    assert "paths" !in m;
    assert LookupPaths(once) == paths;
    BindAllIsOverride(once, section, jsonOk);
    assert once + m == once;
  }

  lemma ScenarioFooIsString(jsonOk: string -> bool)
    ensures BindAll(map[], [("foo", "bar"), ("baz", "123")], jsonOk)
      == BindAll(map["foo" := Value(Str("bar"))], [("baz", "123")], jsonOk)
  {
    WordBindsAsString("bar", NoPaths, jsonOk);
    assert [("foo", "bar"), ("baz", "123")][1..] == [("baz", "123")];
  }

  lemma DecimalOneTwoThree()
    ensures IntToDecimal(123) == "123" && DigitCount(123) == 3
  {
    assert NatToDecimal(12) == "12";
  }

  lemma ScenarioBazIsInt(jsonOk: string -> bool)
    ensures BindAll(map["foo" := Value(Str("bar"))], [("baz", "123")], jsonOk)
      == Bound(map["foo" := Value(Str("bar")), "baz" := Value(Int(123))], None)
  {
    assert Infer("123", NoPaths, jsonOk) == Set(Int(123)) by {
      DecimalOneTwoThree();
      DecimalBindsAsInt(123, NoPaths, jsonOk);
    }
  }

  /** The configuration test's scenario: `foo = bar` and `baz = 123` on an empty object. */
  lemma PlainAndIntegerScenario(jsonOk: string -> bool)
    ensures BindAll(map[], [("foo", "bar"), ("baz", "123")], jsonOk)
      == Bound(map["foo" := Value(Str("bar")), "baz" := Value(Int(123))], None)
  {
    ScenarioFooIsString(jsonOk);
    ScenarioBazIsInt(jsonOk);
  }
}
