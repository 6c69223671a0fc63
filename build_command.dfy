/**
 * build.py: the PyInstaller command line built from the build settings, and the platform's
 * Python library name and path.
 */
module BuildCommand {
  import opened Common
  import PyDict
  import opened PyText
  import opened ConfigFormat

  const LogoPath := "assets/corigge_logo.ico"
  const Script := "main_processing_computer.py"

  /** `config.get(key, default)`. */
  function GetOr(config: Dict, key: string, default: string): string
  {
    match PyDict.Get(config, key)
    case Some(v) => v
    case None => default
  }

  /** A switch that is on unless the settings say otherwise (`config.get(key, 'true').lower() == 'true'`). */
  predicate Switch(config: Dict, key: string)
  {
    Lower(GetOr(config, key, "true")) == "true"
  }

  function LogLevel(config: Dict): string
  {
    GetOr(config, "LOG_LEVEL", "INFO")
  }

  function Flag(b: bool): nat
  {
    if b then 1 else 0
  }

  /** The `--add-binary <binary>:poppler` pairs, one per poppler binary in order. */
  function PopplerArgs(binaries: seq<string>): (args: seq<string>)
    ensures |args| == 2 * |binaries|
  {
    if binaries == [] then []
    else ["--add-binary", binaries[0] + ":poppler"] + PopplerArgs(binaries[1..])
  }

  /** The options before the binaries: onefile, clean, icon, the hidden import and the library. */
  function Options(libPath: string, config: Dict, logoExists: bool): seq<string>
  {
    ["pyinstaller"] +
    (if Switch(config, "ONE_FILE") then ["--onefile"] else []) +
    (if Switch(config, "CLEAN_BUILD") then ["--clean"] else []) +
    (if logoExists then ["--icon", LogoPath] else []) +
    ["--hidden-import", "cv2", "--add-binary", libPath + ":."]
  }

  /** The command `build_pyinstaller_command` returns. */
  function Command(libPath: string, binaries: seq<string>, config: Dict, logoExists: bool): seq<string>
  {
    Options(libPath, config, logoExists) + PopplerArgs(binaries) + ["--log-level", LogLevel(config), Script]
  }

  /**
   * `build_pyinstaller_command`: the command list grown step by step. Whether the logo file
   * exists is an input.
   */
  method BuildPyInstallerCommand(libPath: string, binaries: seq<string>, config: Dict, logoExists: bool)
    returns (cmd: seq<string>)
    ensures cmd == Command(libPath, binaries, config, logoExists)
  {
    cmd := ["pyinstaller"];
    if Lower(GetOr(config, "ONE_FILE", "true")) == "true" {
      cmd := cmd + ["--onefile"];
    }
    if Lower(GetOr(config, "CLEAN_BUILD", "true")) == "true" {
      cmd := cmd + ["--clean"];
    }
    if logoExists {
      cmd := cmd + ["--icon", LogoPath];
    }
    cmd := cmd + ["--hidden-import", "cv2"];
    cmd := cmd + ["--add-binary", libPath + ":."];
    ghost var options := cmd;
    assert options == Options(libPath, config, logoExists);
    cmd := AddPopplerBinaries(cmd, binaries);
    var logLevel := GetOr(config, "LOG_LEVEL", "INFO");
    cmd := cmd + ["--log-level", logLevel];
    cmd := cmd + [Script];
    assert cmd == options + PopplerArgs(binaries) + ["--log-level", logLevel, Script];
  }

  /** The loop of `build_pyinstaller_command` over the poppler binaries. */
  method AddPopplerBinaries(cmd: seq<string>, binaries: seq<string>) returns (out: seq<string>)
    ensures out == cmd + PopplerArgs(binaries)
  {
    out := cmd;
    for i := 0 to |binaries|
      invariant out == cmd + PopplerArgs(binaries[..i])
    {
      PopplerArgsSnoc(binaries[..i], binaries[i]);
      assert binaries[..i + 1] == binaries[..i] + [binaries[i]];
      out := out + ["--add-binary", binaries[i] + ":poppler"];
    }
    assert binaries[..|binaries|] == binaries;
  }

  lemma {:induction false} PopplerArgsSnoc(binaries: seq<string>, b: string)
    ensures PopplerArgs(binaries + [b]) == PopplerArgs(binaries) + ["--add-binary", b + ":poppler"]
    decreases |binaries|
  {
    if binaries == [] {
      assert [b][1..] == [];
    } else {
      assert (binaries + [b])[1..] == binaries[1..] + [b];
      PopplerArgsSnoc(binaries[1..], b);
    }
  }

  /** Binary `j` is the pair at positions `2j` and `2j + 1`. */
  lemma {:induction false} PopplerArgsAt(binaries: seq<string>, j: nat)
    requires j < |binaries|
    ensures PopplerArgs(binaries)[2 * j] == "--add-binary"
    ensures PopplerArgs(binaries)[2 * j + 1] == binaries[j] + ":poppler"
    decreases j
  {
    if j > 0 {
      PopplerArgsAt(binaries[1..], j - 1);
    }
  }

  /** The command runs pyinstaller on the worker's script, with the log level just before it. */
  lemma CommandEnds(libPath: string, binaries: seq<string>, config: Dict, logoExists: bool)
    ensures var cmd := Command(libPath, binaries, config, logoExists);
      |cmd| >= 3 && cmd[0] == "pyinstaller" && cmd[|cmd| - 1] == Script &&
      cmd[|cmd| - 3] == "--log-level" && cmd[|cmd| - 2] == LogLevel(config)
  {
  }

  /** Eight words always, one per switch that is on, two for the icon and two per binary. */
  lemma CommandLength(libPath: string, binaries: seq<string>, config: Dict, logoExists: bool)
    ensures |Command(libPath, binaries, config, logoExists)| ==
      8 + Flag(Switch(config, "ONE_FILE")) + Flag(Switch(config, "CLEAN_BUILD")) + 2 * Flag(logoExists) + 2 * |binaries|
  {
  }

  /**
   * The options in their places: `--onefile` right after "pyinstaller" exactly when ONE_FILE is on,
   * then `--clean` exactly when CLEAN_BUILD is on, then `--icon <logo>` exactly when the logo
   * exists, then the hidden import and the Python library.
   */
  lemma CommandOptions(libPath: string, binaries: seq<string>, config: Dict, logoExists: bool)
    ensures var cmd := Command(libPath, binaries, config, logoExists);
      var one := Flag(Switch(config, "ONE_FILE"));
      var clean := Flag(Switch(config, "CLEAN_BUILD"));
      var icon := 1 + one + clean;
      var lib := icon + 2 * Flag(logoExists) + 2;
      |cmd| > lib + 1 &&
      (cmd[1] == "--onefile" <==> Switch(config, "ONE_FILE")) &&
      (cmd[1 + one] == "--clean" <==> Switch(config, "CLEAN_BUILD")) &&
      (cmd[icon] == "--icon" <==> logoExists) &&
      (logoExists ==> cmd[icon + 1] == LogoPath) &&
      cmd[lib - 2] == "--hidden-import" && cmd[lib - 1] == "cv2" &&
      cmd[lib] == "--add-binary" && cmd[lib + 1] == libPath + ":."
  {
    var opts := Options(libPath, config, logoExists);
    assert Command(libPath, binaries, config, logoExists)[..|opts|] == opts;
  }

  /** Each poppler binary is added as `--add-binary <binary>:poppler`, in input order, after the library. */
  lemma CommandBinaries(libPath: string, binaries: seq<string>, config: Dict, logoExists: bool, j: nat)
    requires j < |binaries|
    ensures var cmd := Command(libPath, binaries, config, logoExists);
      var start := |Options(libPath, config, logoExists)|;
      start + 2 * j + 1 < |cmd| &&
      cmd[start + 2 * j] == "--add-binary" && cmd[start + 2 * j + 1] == binaries[j] + ":poppler"
  {
    PopplerArgsAt(binaries, j);
  }

  // ---------------------------------------------------------------- the Python library

  /** The entries of `get_python_lib_info`'s dict that the build uses. */
  datatype LibInfo = LibInfo(system: string, pythonVersion: string, libDir: Option<string>,
                             libName: Option<string>, libPath: Option<string>)

  /** Python truthiness of an optional string: present and non-empty. */
  predicate Truthy(s: Option<string>)
  {
    s.Some? && s.value != []
  }

  /** `str(Path(dir) / name)`, taken as the directory, one '/' and the name, without normalising the path. */
  function Join(dir: string, name: string): string
  {
    dir + "/" + name
  }

  /** The DLL names tried on Windows, in order. */
  function WindowsNames(version: string): seq<string>
  {
    ["python" + Filter((c: char) => c != '.', version) + ".dll", "python" + version + ".dll", "libpython" + version + ".dll"]
  }

  /** The first name whose file exists in `dir`. */
  function FirstExisting(dir: string, names: seq<string>, existing: set<string>): Option<string>
  {
    if names == [] then None
    else if Join(dir, names[0]) in existing then Some(names[0])
    else FirstExisting(dir, names[1..], existing)
  }

  /** A name is found only when its file exists, and none is found when no file exists. */
  lemma {:induction false} FirstExistingFound(dir: string, names: seq<string>, existing: set<string>)
    ensures var r := FirstExisting(dir, names, existing);
      (r.Some? ==> r.value in names && Join(dir, r.value) in existing) &&
      (r.None? ==> forall i :: 0 <= i < |names| ==> Join(dir, names[i]) !in existing)
  {
    if names != [] && Join(dir, names[0]) !in existing {
      FirstExistingFound(dir, names[1..], existing);
      assert forall i :: 1 <= i < |names| ==> names[i] == names[1..][i - 1];
    }
  }

  /** The name found is the first whose file exists. */
  lemma {:induction false} FirstExistingFirst(dir: string, names: seq<string>, existing: set<string>, i: nat)
    requires i < |names| && Join(dir, names[i]) in existing
    requires forall j :: 0 <= j < i ==> Join(dir, names[j]) !in existing
    ensures FirstExisting(dir, names, existing) == Some(names[i])
    decreases i
  {
    if i > 0 {
      FirstExistingFirst(dir, names[1..], existing, i - 1);
    }
  }

  /** The `for name in possible_names` search of one directory. */
  method FindLibrary(dir: string, names: seq<string>, existing: set<string>) returns (found: Option<string>)
    ensures found == FirstExisting(dir, names, existing)
  {
    var i := 0;
    while i < |names|
      invariant i <= |names|
      invariant FirstExisting(dir, names[i..], existing) == FirstExisting(dir, names, existing)
    {
      assert names[i..][0] == names[i];
      if Join(dir, names[i]) in existing {
        return Some(names[i]);
      }
      assert names[i..][1..] == names[i + 1..];
      i := i + 1;
    }
    assert names[i..] == [];
    return None;
  }

  /**
   * The library directory before the platform search: the one the given interpreter reports
   * (`stdout`, None when the call failed) when it is non-empty and not "None", else the
   * running interpreter's LIBDIR.
   */
  function ReportedLibDir(libDir: Option<string>, stdout: Option<string>): Option<string>
  {
    if stdout.Some? && Strip(stdout.value) != [] && Strip(stdout.value) != "None" then Some(Strip(stdout.value)) else libDir
  }

  /**
   * `get_python_lib_info`. The platform (lower-cased), the version, the running interpreter's
   * LIBDIR, the output of the two interpreter calls (None when a call failed), the directory of
   * the interpreter's executable and the set of files that exist are inputs.
   */
  method GetPythonLibInfo(system: string, version: string, sysLibDir: Option<string>,
                          libDirOut: Option<string>, exeDir: Option<string>, existing: set<string>)
    returns (info: LibInfo)
    ensures info.system == system && info.pythonVersion == version
    ensures info.libPath.Some? <==> Truthy(info.libDir) && info.libName.Some?
    ensures info.libPath.Some? ==> info.libPath.value == Join(info.libDir.value, info.libName.value)
    ensures system == "darwin" ==> info.libName == Some("libpython" + version + ".dylib")
    ensures system == "linux" ==> info.libName == Some("libpython" + version + ".so")
    ensures system !in ["darwin", "windows", "linux"] ==> info.libName == None
    ensures system != "windows" ==> info.libDir == ReportedLibDir(sysLibDir, libDirOut)
    ensures system == "windows" && info.libPath.Some? ==>
      info.libName.value in WindowsNames(version) && info.libPath.value in existing
    // the first existing candidate in the reported directory, or else in the interpreter's
    ensures system == "windows" ==>
      var reported := ReportedLibDir(sysLibDir, libDirOut);
      var inLib := if Truthy(reported) then FirstExisting(reported.value, WindowsNames(version), existing) else None;
      var inExe := if exeDir.Some? then FirstExisting(exeDir.value, WindowsNames(version), existing) else None;
      && (inLib.Some? ==> info.libName == inLib && info.libDir == reported)
      && (inLib.None? ==> info.libName == inExe && info.libDir == (if inExe.Some? then exeDir else reported))
  {
    var libDir := ReportedLibDir(sysLibDir, libDirOut);
    var libName: Option<string> := None;
    if system == "darwin" {
      libName := Some("libpython" + version + ".dylib");
    } else if system == "windows" {
      var names := WindowsNames(version);
      if Truthy(libDir) {
        libName := FindLibrary(libDir.value, names, existing);
        FirstExistingFound(libDir.value, names, existing);
      }
      if libName.None? && exeDir.Some? {
        libName := FindLibrary(exeDir.value, names, existing);
        FirstExistingFound(exeDir.value, names, existing);
        if libName.Some? {
          libDir := exeDir;
        }
      }
    } else if system == "linux" {
      libName := Some("libpython" + version + ".so");
    }
    var libPath: Option<string> := None;
    if Truthy(libDir) && libName.Some? {
      libPath := Some(Join(libDir.value, libName.value));
    }
    info := LibInfo(system, version, libDir, libName, libPath);
  }
}
