/**
 * The settings file as `load_config` and `save_config` see it: a file that may not exist, read
 * line by line into a dict, and rewritten in place from a dict.
 */
module ConfigFile {
  import opened Common
  import PyDict
  import opened ConfigFormat
  import opened ConfigSave

  /** `runtime_config.env` (set_debug_mode.py) or `build_config.env` (build.py). */
  class SettingsFile {
    /** The file's text, or None while the file does not exist. */
    var text: Option<string>

    constructor(initial: Option<string>)
      ensures text == initial
    {
      text := initial;
    }

    /** What reading the file yields: a missing file reads as nothing. */
    function Contents(): string
      reads this
    {
      match text
      case Some(t) => t
      case None => []
    }

    /**
     * `load_config`: every stripped line that is non-empty, not a comment and holds an '=' sets
     * its stripped key to its stripped value, later lines overriding earlier ones.
     */
    method Load() returns (config: Dict)
      ensures config == Parsed(Lines(Contents()))
    {
      config := [];
      if text.Some? {
        var lines := Lines(text.value);
        for i := 0 to |lines|
          invariant config == Parsed(lines[..i])
        {
          var line := Strip(lines[i]);
          IndexOfFound(line, '=');
          ParsedSnoc(lines, i);
          if line != [] && line[0] != '#' && '=' in line {
            var n := IndexOf(line, '=');
            config := PyDict.Set(config, Strip(line[..n]), Strip(line[n + 1..]));
          }
        }
        assert lines[..|lines|] == lines;
      }
    }

    /**
     * `save_config(config)`: the old lines are written back, the first line of each key still
     * in the dict as `key=value` (the key then leaves the dict), and the keys left are appended
     * in dict order. Returns the caller's dict as the deletions leave it. With `Intended`, an
     * unterminated last line is ended with '\n' before anything is appended after it.
     */
    method Save(mode: SaveMode, config: Dict) returns (remaining: Dict)
      modifies this
      ensures remaining == Rewrite(config, Rows(Lines(old(Contents())))).1
      ensures text == Some(Concat(Saved(mode, config, Lines(old(Contents())))))
    {
      var out;
      out, remaining := RewriteLines(config, Lines(Contents()));
      if mode == Intended && remaining != [] && out != [] && !Terminated(out[|out| - 1]) {
        out := out[..|out| - 1] + [out[|out| - 1] + "\n"];
      }
      ghost var written := out;
      for j := 0 to |remaining|
        invariant out == written + Appended(remaining)[..j]
      {
        assert Appended(remaining)[..j + 1] == Appended(remaining)[..j] + [Appended(remaining)[j]];
        out := out + [Render(remaining[j].0, remaining[j].1)];
      }
      assert Appended(remaining)[..|remaining|] == Appended(remaining);
      text := Some(Concat(out));
    }
  }

  /**
   * The first loop of `save_config`: each old line is copied, except the first line of each key
   * still in the dict, which is written as `key=value` while the key leaves the dict.
   */
  method RewriteLines(config: Dict, lines: seq<string>) returns (out: seq<string>, remaining: Dict)
    ensures (out, remaining) == Rewrite(config, Rows(lines))
  {
    ghost var rows := Rows(lines);
    ghost var full := Rewrite(config, rows);
    out := [];
    remaining := config;
    for i := 0 to |lines|
      invariant Rewrite(remaining, rows[i..]).1 == full.1
      invariant out + Rewrite(remaining, rows[i..]).0 == full.0
    {
      var line := lines[i];
      var stripped := Strip(line);
      IndexOfFound(stripped, '=');
      RewriteFrom(remaining, rows, i);
      ghost var step := RewriteLine(remaining, rows[i]);
      ghost var tail := Rewrite(step.1, rows[i + 1..]).0;
      assert out + ([step.0] + tail) == (out + [step.0]) + tail;
      if stripped != [] && stripped[0] != '#' && '=' in stripped {
        var n := IndexOf(stripped, '=');
        var key := Strip(stripped[..n]);
        var found := PyDict.Get(remaining, key);
        if found.Some? {
          out := out + [Render(key, found.value)];
          remaining := PyDict.Remove(remaining, key);
        } else {
          out := out + [line];
        }
      } else {
        out := out + [line];
      }
    }
    assert rows[|lines|..] == [];
    assert out + [] == out;
  }
}
