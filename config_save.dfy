/**
 * `save_config` of set_debug_mode.py as functions on lines: every line of the old file is kept,
 * except that the first line of each key still in the dict becomes `key=value` and the key is
 * deleted from the dict; the keys left over are appended in dict order.
 */
module ConfigSave {
  import opened Common
  import PyDict
  import opened ConfigFormat

  /** A line of the old file together with what `load_config` makes of it. */
  type Row = (string, Entry)

  function Rows(lines: seq<string>): (rows: seq<Row>)
    ensures |rows| == |lines|
  {
    seq(|lines|, i requires 0 <= i < |lines| => (lines[i], ParseLine(lines[i])))
  }

  /** Every row carries the parse of its own line. */
  ghost predicate Consistent(rows: seq<Row>)
  {
    forall i :: 0 <= i < |rows| ==> rows[i].1 == ParseLine(rows[i].0)
  }

  function RowKey(row: Row): Option<string>
  {
    match row.1
    case Some(kv) => Some(kv.0)
    case None => None
  }

  /** The position of the first row whose key is `k`, or `|rows|` when there is none. */
  function KeyIndex(rows: seq<Row>, k: string): (i: nat)
    ensures i <= |rows|
    ensures i < |rows| ==> RowKey(rows[i]) == Some(k)
    ensures forall j :: 0 <= j < i ==> RowKey(rows[j]) != Some(k)
  {
    if rows == [] then 0 else if RowKey(rows[0]) == Some(k) then 0 else 1 + KeyIndex(rows[1..], k)
  }

  /** At most one row carries key `k`. */
  ghost predicate AtMostOnce(rows: seq<Row>, k: string)
  {
    forall i, j :: 0 <= i < j < |rows| && RowKey(rows[i]) == Some(k) ==> RowKey(rows[j]) != Some(k)
  }

  /** The line written for a setting. */
  function Render(k: string, v: string): string
  {
    k + "=" + v + "\n"
  }

  /**
   * Which saving to model: the source's, or one that first ends an unterminated last line with
   * '\n' when settings are appended after it (see ReadBackLost).
   */
  datatype SaveMode = AsWritten | Intended

  /** One step of the first loop: the line written and the dict left afterwards. */
  function RewriteLine(config: Dict, row: Row): (string, Dict)
  {
    match RowKey(row)
    case Some(k) =>
      (match PyDict.Get(config, k)
       case Some(v) => (Render(k, v), PyDict.Remove(config, k))
       case None => (row.0, config))
    case None => (row.0, config)
  }

  /** The first loop over the old lines: the lines written and the dict left afterwards. */
  function Rewrite(config: Dict, rows: seq<Row>): (r: (seq<string>, Dict))
    ensures |r.0| == |rows|
    decreases |rows|
  {
    if rows == [] then ([], config)
    else
      var step := RewriteLine(config, rows[0]);
      var tail := Rewrite(step.1, rows[1..]);
      ([step.0] + tail.0, tail.1)
  }

  /** The second loop: one line per entry left, in dict order. */
  function Appended(d: Dict): (ls: seq<string>)
    ensures |ls| == |d|
  {
    seq(|d|, i requires 0 <= i < |d| => Render(d[i].0, d[i].1))
  }

  /** Ends the last line with '\n' when it has none. */
  function EndLast(ls: seq<string>): seq<string>
  {
    if ls != [] && !Terminated(ls[|ls| - 1]) then ls[..|ls| - 1] + [ls[|ls| - 1] + "\n"] else ls
  }

  /** The lines written by `save_config(config)` over old lines with the given rows. */
  function SavedRows(mode: SaveMode, config: Dict, rows: seq<Row>): seq<string>
  {
    var r := Rewrite(config, rows);
    (if mode == Intended && r.1 != [] then EndLast(r.0) else r.0) + Appended(r.1)
  }

  /** The lines written by `save_config(config)` over a file whose lines are `lines`. */
  function Saved(mode: SaveMode, config: Dict, lines: seq<string>): seq<string>
  {
    SavedRows(mode, config, Rows(lines))
  }

  // ---------------------------------------------------------------- the first loop

  /**
   * Line `i` is written unchanged, except when it is the first line of a key still in the dict:
   * then it becomes `key=value`. Blank, comment and '='-less lines, lines of other keys and
   * later lines of a rewritten key all stay verbatim.
   */
  lemma {:induction false} RewriteAt(config: Dict, rows: seq<Row>, i: nat)
    requires i < |rows|
    ensures Rewrite(config, rows).0[i] ==
      match RowKey(rows[i])
      case Some(k) =>
        if KeyIndex(rows, k) == i && PyDict.Get(config, k).Some? then Render(k, PyDict.Get(config, k).value) else rows[i].0
      case None => rows[i].0
    decreases i
  {
    if i > 0 {
      var step := RewriteLine(config, rows[0]);
      RewriteAt(step.1, rows[1..], i - 1);
      assert Rewrite(config, rows).0[i] == Rewrite(step.1, rows[1..]).0[i - 1];
      assert rows[1..][i - 1] == rows[i];
      match RowKey(rows[i]) {
        case Some(k) =>
          match RowKey(rows[0]) {
            case Some(k0) =>
              if PyDict.Get(config, k0).Some? {
                PyDict.GetAfterRemove(config, k0, k);
              }
            case None =>
          }
        case None =>
      }
    }
  }

  /** The first loop from row `i` on: row `i`'s step, then the rest from the dict it leaves. */
  lemma RewriteFrom(config: Dict, rows: seq<Row>, i: nat)
    requires i < |rows|
    ensures var step := RewriteLine(config, rows[i]);
      var tail := Rewrite(step.1, rows[i + 1..]);
      Rewrite(config, rows[i..]) == ([step.0] + tail.0, tail.1)
  {
    assert rows[i..][0] == rows[i];
    assert rows[i..][1..] == rows[i + 1..];
  }

  /** After the first loop a key is left exactly when no line carried it, with its value unchanged. */
  lemma {:induction false} RewriteRest(config: Dict, rows: seq<Row>, k: string)
    ensures PyDict.Get(Rewrite(config, rows).1, k) == if KeyIndex(rows, k) < |rows| then None else PyDict.Get(config, k)
    decreases |rows|
  {
    if rows != [] {
      var step := RewriteLine(config, rows[0]);
      RewriteRest(step.1, rows[1..], k);
      match RowKey(rows[0]) {
        case Some(k0) =>
          if PyDict.Get(config, k0).Some? {
            PyDict.GetAfterRemove(config, k0, k);
          }
        case None =>
      }
    }
  }

  /** What is left after the first loop has distinct and clean entries when the dict has. */
  lemma {:induction false} RewriteRestEntries(config: Dict, rows: seq<Row>)
    requires CleanEntries(config) && PyDict.DistinctKeys(config)
    ensures CleanEntries(Rewrite(config, rows).1) && PyDict.DistinctKeys(Rewrite(config, rows).1)
    decreases |rows|
  {
    if rows != [] {
      var step := RewriteLine(config, rows[0]);
      match RowKey(rows[0]) {
        case Some(k0) =>
          if PyDict.Get(config, k0).Some? {
            PyDict.RemoveEntries(config, k0);
            PyDict.RemoveKeepsDistinct(config, k0);
          }
        case None =>
      }
      RewriteRestEntries(step.1, rows[1..]);
    }
  }

  /** A rendered setting is a shaped, terminated line that parses back to its key and value. */
  lemma RenderClean(k: string, v: string)
    requires CleanKey(k) && CleanValue(v)
    ensures ParseLine(Render(k, v)) == Some((k, v))
    ensures Shaped(Render(k, v)) && Terminated(Render(k, v))
  {
    RenderParses(k, v);
    assert Render(k, v)[..|Render(k, v)| - 1] == k + "=" + v;
  }

  /** Each written line carries the key of the old line in its place, and keeps its shape. */
  lemma RewriteKeys(config: Dict, rows: seq<Row>, i: nat)
    requires CleanEntries(config) && Consistent(rows) && i < |rows|
    ensures KeyOf(Rewrite(config, rows).0[i]) == RowKey(rows[i])
    ensures Shaped(rows[i].0) ==> Shaped(Rewrite(config, rows).0[i])
    ensures Terminated(rows[i].0) ==> Terminated(Rewrite(config, rows).0[i])
  {
    RewriteAt(config, rows, i);
    match RowKey(rows[i]) {
      case Some(k) =>
        var g := PyDict.Get(config, k);
        if KeyIndex(rows, k) == i && g.Some? {
          PyDict.GetEntry(config, k);
          RenderClean(k, g.value);
        }
      case None =>
    }
  }

  // ---------------------------------------------------------------- the lines written

  /** Old lines come first, one written line each; then one line per key no old line carried. */
  lemma SavedShape(mode: SaveMode, config: Dict, rows: seq<Row>, k: string)
    ensures var r := Rewrite(config, rows);
      |SavedRows(mode, config, rows)| == |rows| + |r.1| &&
      SavedRows(mode, config, rows)[|rows|..] == Appended(r.1) &&
      (PyDict.Get(r.1, k).Some? <==> PyDict.Get(config, k).Some? && KeyIndex(rows, k) == |rows|)
  {
    RewriteRest(config, rows, k);
  }

  /** One more entry appends one more line. */
  lemma AppendedSnocLines(d: Dict, e: (string, string))
    ensures Appended(d + [e]) == Appended(d) + [Render(e.0, e.1)]
  {
    var ad := Appended(d + [e]);
    var ai := Appended(d);
    forall j | 0 <= j < |ad|
      ensures ad[j] == (ai + [Render(e.0, e.1)])[j]
    {
      if j < |ai| {
        assert (d + [e])[j] == d[j];
      }
    }
  }

  /** One more entry appends one more line, which parses back to that entry. */
  lemma AppendedSnoc(d: Dict, e: (string, string))
    requires CleanKey(e.0) && CleanValue(e.1)
    ensures Entries(Appended(d + [e])) == Entries(Appended(d)) + [Some(e)]
  {
    var line := Render(e.0, e.1);
    AppendedSnocLines(d, e);
    EntriesAppend(Appended(d), [line]);
    RenderClean(e.0, e.1);
    assert Entries([line]) == [Some(e)];
  }

  /** The entries left after the first loop read back from their appended lines. */
  lemma {:induction false} AppendedReadsBack(d: Dict, k: string)
    requires CleanEntries(d) && PyDict.DistinctKeys(d)
    ensures LastValue(Entries(Appended(d)), k) == PyDict.Get(d, k)
  {
    if d != [] {
      var init := d[..|d| - 1];
      var e := d[|d| - 1];
      assert d == init + [e];
      assert CleanEntries(init) && PyDict.DistinctKeys(init);
      AppendedReadsBack(init, k);
      AppendedSnoc(init, e);
      var es := Entries(Appended(init));
      assert (es + [Some(e)])[..|es|] == es;
      PyDict.GetSnoc(init, e, k);
      if e.0 == k {
        PyDict.GetFindsKeys(init, k);
        assert forall j :: 0 <= j < |init| ==> init[j].0 != k;
        assert PyDict.Get(init, k) == None;
      }
    }
  }

  /** Ending the last line with '\n' changes no line's parse. */
  lemma EndLastEntries(ls: seq<string>)
    ensures Entries(EndLast(ls)) == Entries(ls)
  {
    if ls != [] && !Terminated(ls[|ls| - 1]) {
      var n := |ls| - 1;
      ParseNewline(ls[n]);
      var r := EndLast(ls);
      assert |r| == |ls|;
      forall i | 0 <= i < |ls|
        ensures Entries(r)[i] == Entries(ls)[i]
      {
        if i < n {
          assert r[i] == ls[i];
        } else {
          assert r[i] == ls[n] + "\n";
        }
      }
    }
  }

  /** The first loop keeps every line shaped, and terminated where the old line was. */
  lemma RewriteShaped(config: Dict, rows: seq<Row>)
    requires CleanEntries(config) && Consistent(rows)
    requires forall i :: 0 <= i < |rows| ==> Shaped(rows[i].0)
    ensures forall i :: 0 <= i < |rows| ==> Shaped(Rewrite(config, rows).0[i])
    ensures forall i :: 0 <= i < |rows| && Terminated(rows[i].0) ==> Terminated(Rewrite(config, rows).0[i])
  {
    forall i | 0 <= i < |rows|
      ensures Shaped(Rewrite(config, rows).0[i])
      ensures Terminated(rows[i].0) ==> Terminated(Rewrite(config, rows).0[i])
    {
      RewriteKeys(config, rows, i);
    }
  }

  /** Appended lines are shaped and terminated. */
  lemma AppendedShaped(d: Dict)
    requires CleanEntries(d)
    ensures forall i :: 0 <= i < |d| ==> Shaped(Appended(d)[i]) && Terminated(Appended(d)[i])
  {
    forall i | 0 <= i < |d|
      ensures Shaped(Appended(d)[i]) && Terminated(Appended(d)[i])
    {
      RenderClean(d[i].0, d[i].1);
    }
  }

  /** A shaped line without its '\n' stays shaped once one is added. */
  lemma EndShaped(line: string)
    requires Shaped(line) && !Terminated(line)
    ensures Shaped(line + "\n") && Terminated(line + "\n")
  {
    assert line == line[..|line| - 1] + [line[|line| - 1]];
    assert (line + "\n")[..|line|] == line;
  }

  /** Well-split lines followed by shaped, terminated ones are well split when the first part ends terminated. */
  lemma JoinWellSplit(a: seq<string>, b: seq<string>)
    requires WellSplit(a)
    requires forall i :: 0 <= i < |b| ==> Shaped(b[i]) && Terminated(b[i])
    requires b != [] && a != [] ==> Terminated(a[|a| - 1])
    ensures WellSplit(a + b)
  {
    var all := a + b;
    forall i | 0 <= i < |all|
      ensures Shaped(all[i])
      ensures i < |all| - 1 ==> Terminated(all[i])
    {
      if i >= |a| {
        assert all[i] == b[i - |a|];
      } else {
        assert all[i] == a[i];
      }
    }
  }

  /** The first loop keeps old lines well split, and keeps the last one terminated if it was. */
  lemma RewriteWellSplit(config: Dict, rows: seq<Row>)
    requires CleanEntries(config) && Consistent(rows)
    requires forall i :: 0 <= i < |rows| ==> Shaped(rows[i].0)
    requires forall i :: 0 <= i < |rows| - 1 ==> Terminated(rows[i].0)
    ensures WellSplit(Rewrite(config, rows).0)
    ensures rows != [] && Terminated(rows[|rows| - 1].0) ==> Terminated(Rewrite(config, rows).0[|rows| - 1])
  {
    RewriteShaped(config, rows);
  }

  /** Ending the last line keeps lines well split and leaves the last one terminated. */
  lemma EndLastWellSplit(ls: seq<string>)
    requires WellSplit(ls)
    ensures |EndLast(ls)| == |ls| && WellSplit(EndLast(ls))
    ensures ls != [] ==> Terminated(EndLast(ls)[|ls| - 1])
  {
    if ls != [] && !Terminated(ls[|ls| - 1]) {
      var out := EndLast(ls);
      EndShaped(ls[|ls| - 1]);
      assert forall i :: 0 <= i < |out| - 1 ==> out[i] == ls[i];
    }
  }

  /** The lines of the first loop, with the last one ended when the intended saving appends after it. */
  lemma OutWellSplit(mode: SaveMode, config: Dict, rows: seq<Row>)
    requires CleanEntries(config) && Consistent(rows)
    requires forall i :: 0 <= i < |rows| ==> Shaped(rows[i].0)
    requires forall i :: 0 <= i < |rows| - 1 ==> Terminated(rows[i].0)
    requires mode == Intended || rows == [] || Terminated(rows[|rows| - 1].0)
    ensures var r := Rewrite(config, rows);
      var out := if mode == Intended && r.1 != [] then EndLast(r.0) else r.0;
      WellSplit(out) && (r.1 != [] && out != [] ==> Terminated(out[|out| - 1]))
  {
    var r := Rewrite(config, rows);
    RewriteWellSplit(config, rows);
    if mode == Intended && r.1 != [] {
      EndLastWellSplit(r.0);
    }
  }

  /**
   * The written lines split back into themselves, provided the old file's lines were all
   * terminated or the intended saving is used.
   */
  lemma SavedWellSplit(mode: SaveMode, config: Dict, rows: seq<Row>)
    requires CleanEntries(config) && PyDict.DistinctKeys(config) && Consistent(rows)
    requires forall i :: 0 <= i < |rows| ==> Shaped(rows[i].0)
    requires forall i :: 0 <= i < |rows| - 1 ==> Terminated(rows[i].0)
    requires mode == Intended || rows == [] || Terminated(rows[|rows| - 1].0)
    ensures WellSplit(SavedRows(mode, config, rows))
  {
    var r := Rewrite(config, rows);
    OutWellSplit(mode, config, rows);
    RewriteRestEntries(config, rows);
    AppendedShaped(r.1);
    var out := if mode == Intended && r.1 != [] then EndLast(r.0) else r.0;
    JoinWellSplit(out, Appended(r.1));
  }

  /** Written lines in the place of old lines without key `k` carry no `k` either. */
  lemma RewriteOthers(config: Dict, rows: seq<Row>, k: string, from: nat)
    requires CleanEntries(config) && Consistent(rows)
    requires forall j :: from <= j < |rows| ==> RowKey(rows[j]) != Some(k)
    ensures forall j :: from <= j < |rows| ==>
      Entries(Rewrite(config, rows).0)[j].None? || Entries(Rewrite(config, rows).0)[j].value.0 != k
  {
    forall j | from <= j < |rows|
      ensures Entries(Rewrite(config, rows).0)[j].None? || Entries(Rewrite(config, rows).0)[j].value.0 != k
    {
      RewriteKeys(config, rows, j);
    }
  }

  /** The first loop's lines read `k` back as its dict value when a line carried it, else not at all. */
  lemma RewriteReadsBack(config: Dict, rows: seq<Row>, k: string)
    requires CleanEntries(config) && Consistent(rows)
    requires PyDict.Get(config, k).Some? && AtMostOnce(rows, k)
    ensures LastValue(Entries(Rewrite(config, rows).0), k) ==
      if KeyIndex(rows, k) < |rows| then PyDict.Get(config, k) else None
  {
    if KeyIndex(rows, k) < |rows| {
      RewriteReadsBackAt(config, rows, k, KeyIndex(rows, k), PyDict.Get(config, k).value);
    } else {
      RewriteOthers(config, rows, k, 0);
      LastValueFound(Entries(Rewrite(config, rows).0), k);
    }
  }

  lemma RewriteReadsBackAt(config: Dict, rows: seq<Row>, k: string, i: nat, v: string)
    requires CleanEntries(config) && Consistent(rows)
    requires PyDict.Get(config, k) == Some(v) && AtMostOnce(rows, k)
    requires i == KeyIndex(rows, k) && i < |rows|
    ensures LastValue(Entries(Rewrite(config, rows).0), k) == Some(v)
  {
    RewriteAt(config, rows, i);
    PyDict.GetEntry(config, k);
    RenderClean(k, v);
    RewriteOthers(config, rows, k, i + 1);
    LastValueAt(Entries(Rewrite(config, rows).0), k, i, v);
  }

  /** The written lines carry every key of the dict that at most one old line carried. */
  lemma SavedReadsBack(mode: SaveMode, config: Dict, rows: seq<Row>, k: string)
    requires CleanEntries(config) && PyDict.DistinctKeys(config) && Consistent(rows)
    requires PyDict.Get(config, k).Some? && AtMostOnce(rows, k)
    ensures LastValue(Entries(SavedRows(mode, config, rows)), k) == PyDict.Get(config, k)
  {
    var r := Rewrite(config, rows);
    var out := if mode == Intended && r.1 != [] then EndLast(r.0) else r.0;
    EndLastEntries(r.0);
    EntriesAppend(out, Appended(r.1));
    RewriteRestEntries(config, rows);
    AppendedReadsBack(r.1, k);
    RewriteRest(config, rows, k);
    RewriteReadsBack(config, rows, k);
    LastValueAppend(Entries(out), Entries(Appended(r.1)), k);
  }

  /**
   * Saving and loading again reads back every key of the dict that at most one old line carried,
   * provided the old file ended with '\n' (or the intended saving is used).
   */
  lemma SaveThenLoad(mode: SaveMode, config: Dict, text: string, k: string)
    requires CleanEntries(config) && PyDict.DistinctKeys(config) && PyDict.Get(config, k).Some?
    requires AtMostOnce(Rows(Lines(text)), k)
    requires mode == Intended || text == [] || text[|text| - 1] == '\n'
    ensures PyDict.Get(Parsed(Lines(Concat(Saved(mode, config, Lines(text))))), k) == PyDict.Get(config, k)
  {
    var lines := Lines(text);
    var rows := Rows(lines);
    LinesShape(text);
    var saved := Saved(mode, config, lines);
    SavedWellSplit(mode, config, rows);
    LinesConcat(saved);
    FoldGet(Entries(saved), k);
    SavedReadsBack(mode, config, rows, k);
  }

  /**
   * Setting one key over a file and loading it again reads the new value back, when at most one
   * line of the file carried the key and the file ended with '\n' (or the intended saving is used).
   */
  lemma SetThenLoad(mode: SaveMode, text: string, key: string, value: string)
    requires CleanKey(key) && CleanValue(value)
    requires AtMostOnce(Rows(Lines(text)), key)
    requires mode == Intended || text == [] || text[|text| - 1] == '\n'
    ensures PyDict.Get(Parsed(Lines(Concat(Saved(mode, PyDict.Set(Parsed(Lines(text)), key, value), Lines(text))))), key) == Some(value)
  {
    var lines := Lines(text);
    var before := Parsed(lines);
    var config := PyDict.Set(before, key, value);
    LinesShape(text);
    ParsedClean(lines);
    PyDict.SetEntries(before, key, value);
    assert CleanEntries(config);
    FoldDistinct(Entries(lines));
    PyDict.SetKeepsDistinct(before, key, value);
    PyDict.GetAfterSet(before, key, value, key);
    SaveThenLoad(mode, config, text, key);
  }

  /** A file holding one comment line without '\n'. */
  lemma CommentOnly(text: string)
    requires text == "# settings"
    ensures '\n' !in text && Lines(text) == [text] && Rows([text]) == [(text, None)] && Parsed([text]) == []
  {
    assert '\n' !in text;
    IndexOfAppend(text, [], '\n');
    assert text + [] == text;
    CommentSkipped(text);
    CommentLoadsNothing(text);
  }

  /** A comment line without '\n' followed by any one line is read as one line. */
  lemma GluedLines(c: string, l: string)
    requires '\n' !in c
    requires Shaped(l) && Terminated(l)
    ensures Lines(c + l) == [c + l]
  {
    var whole := c + l;
    assert whole[..|whole| - 1] == c + l[..|l| - 1];
    LinesCons(whole, []);
    assert whole + [] == whole;
  }

  /** A line starting with '#' is skipped, whatever follows. */
  lemma CommentSkipped(line: string)
    requires line != [] && line[0] == '#'
    ensures ParseLine(line) == None
  {
    var e := TrimEnd(line);
    TrimEndPrefix(line);
    TrimEndSpaces(line);
    assert e != [] && e[0] == '#' by {
      assert !IsSpace(line[0]);
    }
    TrimStartKeeps(e);
    assert Strip(line)[0] == '#';
  }

  /** A lone line starting with '#' loads nothing. */
  lemma CommentLoadsNothing(line: string)
    requires line != [] && line[0] == '#'
    ensures Parsed([line]) == []
  {
    CommentSkipped(line);
    assert Entries([line]) == [None];
    assert Fold([None]) == Fold([]);
  }

  /** A line without a key is written back alone and leaves the dict as it was. */
  lemma RewriteKeyless(config: Dict, row: Row)
    requires RowKey(row) == None
    ensures Rewrite(config, [row]) == ([row.0], config)
  {
    assert [row][1..] == [];
    assert Rewrite(config, []) == ([], config);
    assert [row.0] + [] == [row.0];
  }

  /** Names made of letters and '_' are clean keys and values. */
  lemma WordClean(s: string)
    requires forall i :: 0 <= i < |s| ==> 'A' <= s[i] <= 'Z' || 'a' <= s[i] <= 'z' || s[i] == '_'
    ensures CleanKey(s) && CleanValue(s)
  {
  }

  lemma DebugModeClean()
    ensures CleanKey("DEBUG_MODE") && CleanValue("true")
  {
    WordClean("DEBUG_MODE");
    WordClean("true");
  }

  /**
   * A setting appended after a last line that is a comment without '\n' is written onto that
   * line, so loading the file again loses it.
   */
  lemma CommentAppendLost(c: string, k: string, v: string)
    requires c != [] && c[0] == '#' && '\n' !in c
    requires CleanKey(k) && CleanValue(v)
    ensures Saved(AsWritten, [(k, v)], [c]) == [c, Render(k, v)]
    ensures Parsed(Lines(Concat([c, Render(k, v)]))) == []
  {
    var line := Render(k, v);
    CommentSkipped(c);
    assert Rows([c]) == [(c, None)];
    RewriteKeyless([(k, v)], (c, None));
    assert Appended([(k, v)]) == [line];
    assert [c, line][1..] == [line];
    assert [line][1..] == [];
    assert Concat([line]) == line + [];
    assert Concat([c, line]) == c + line;
    RenderClean(k, v);
    GluedLines(c, line);
    CommentLoadsNothing(c + line);
  }

  /** Two lines for the same key read as two lines, and the second one wins. */
  lemma TwoKeyLines(k: string, x: string, y: string)
    requires CleanKey(k) && CleanValue(x) && CleanValue(y)
    ensures Lines(Render(k, x) + Render(k, y)) == [Render(k, x), Render(k, y)]
    ensures Parsed([Render(k, x), Render(k, y)]) == [(k, y)]
  {
    RenderClean(k, x);
    RenderClean(k, y);
    LinesCons(Render(k, y), []);
    assert Render(k, y) + [] == Render(k, y);
    LinesCons(Render(k, x), Render(k, y));
    var ls := [Render(k, x), Render(k, y)];
    var es := Entries(ls);
    assert es == [Some((k, x)), Some((k, y))];
    assert es[..1] == [Some((k, x))];
    assert Fold(es[..1]) == [(k, x)] by {
      assert es[..1][..0] == [];
    }
    assert Fold(es) == PyDict.Set([(k, x)], k, y);
  }

  /**
   * With two lines for one key, setting that key rewrites only the first line and keeps the
   * second verbatim, so the old value is read back: a file "K=x\nK=y\n" set to v reads y.
   */
  lemma DuplicateKeyKeepsOld(mode: SaveMode, k: string, x: string, y: string, v: string)
    requires CleanKey(k) && CleanValue(x) && CleanValue(y) && CleanValue(v)
    ensures var text := Render(k, x) + Render(k, y);
      var saved := Saved(mode, PyDict.Set(Parsed(Lines(text)), k, v), Lines(text));
      && saved == [Render(k, v), Render(k, y)]
      && PyDict.Get(Parsed(Lines(Concat(saved))), k) == Some(y)
  {
    TwoKeyLines(k, x, y);
    TwoKeyLines(k, v, y);
    RenderClean(k, x);
    RenderClean(k, y);
    var lines := [Render(k, x), Render(k, y)];
    var config := PyDict.Set([(k, y)], k, v);
    assert config == [(k, v)];
    var rows := Rows(lines);
    assert rows == [(Render(k, x), Some((k, x))), (Render(k, y), Some((k, y)))];
    assert rows[1..] == [(Render(k, y), Some((k, y)))];
    assert rows[1..][1..] == [];
    assert RowKey(rows[0]) == Some(k) && RowKey(rows[1]) == Some(k);
    assert PyDict.Get(config, k) == Some(v) && PyDict.Remove(config, k) == [];
    var none: Dict := [];
    assert RewriteLine(config, rows[0]) == (Render(k, v), none);
    var last := rows[1..];
    assert last == [rows[1]] && last[1..] == [];
    assert Rewrite(none, last[1..]) == ([], none);
    assert RewriteLine(none, last[0]) == (Render(k, y), none);
    assert Rewrite(none, last) == ([Render(k, y)] + [], none);
    assert rows != [] && Rewrite(config, rows) == ([Render(k, v)] + Rewrite(none, last).0, none);
    assert [Render(k, v)] + ([Render(k, y)] + []) == [Render(k, v), Render(k, y)];
    assert Rewrite(config, rows) == ([Render(k, v), Render(k, y)], none);
    var saved := [Render(k, v), Render(k, y)];
    assert Concat(saved) == Render(k, v) + Render(k, y) by {
      assert saved[1..] == [Render(k, y)];
      assert Concat([Render(k, y)]) == Render(k, y) + [];
    }
  }

  /**
   * `save_config` as written loses a new setting when the file's last line has no '\n': the file
   * holding just "# settings" and `set_debug_mode(True)`.
   */
  lemma ReadBackLost()
    ensures var text := "# settings";
      var config := PyDict.Set(Parsed(Lines(text)), "DEBUG_MODE", "true");
      PyDict.Get(config, "DEBUG_MODE") == Some("true") &&
      PyDict.Get(Parsed(Lines(Concat(Saved(AsWritten, config, Lines(text))))), "DEBUG_MODE") == None
  {
    var text := "# settings";
    CommentOnly(text);
    var config := [("DEBUG_MODE", "true")];
    assert PyDict.Set([], "DEBUG_MODE", "true") == config;
    DebugModeClean();
    CommentAppendLost(text, "DEBUG_MODE", "true");
  }

}
