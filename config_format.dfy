/**
 * The `KEY=VALUE` settings file read by `load_config` in both set_debug_mode.py and build.py:
 * the text, taken after newline translation, splits into lines at '\n', each line is stripped, and only
 * non-empty, non-comment lines holding an '=' are kept, split at their first '='.
 */
module ConfigFormat {
  import opened Common
  import PyDict

  type Dict = PyDict.Dict<string, string>

  /** The ASCII characters `str.strip()` removes. */
  predicate IsSpace(c: char)
  {
    c == ' ' || '\t' <= c <= '\r' || '\U{1C}' <= c <= '\U{1F}'
  }

  /** `s.lstrip()`. */
  function TrimStart(s: string): (r: string)
    ensures |r| <= |s|
    ensures r != [] ==> !IsSpace(r[0])
  {
    if s != [] && IsSpace(s[0]) then TrimStart(s[1..]) else s
  }

  /** `s.rstrip()`. */
  function TrimEnd(s: string): (r: string)
    ensures |r| <= |s|
    ensures r != [] ==> !IsSpace(r[|r| - 1])
  {
    if s != [] && IsSpace(s[|s| - 1]) then TrimEnd(s[..|s| - 1]) else s
  }

  /** `s.strip()`. */
  function Strip(s: string): string
  {
    TrimStart(TrimEnd(s))
  }

  /** The position of the first `c` in `s`, or `|s|` when there is none (`s.find(c)`). */
  function IndexOf(s: string, c: char): (i: nat)
    ensures i <= |s|
    ensures i < |s| ==> s[i] == c
  {
    if s == [] then 0 else if s[0] == c then 0 else 1 + IndexOf(s[1..], c)
  }

  /** Writing lines back to back (`f.writelines(lines)`). */
  function Concat(ls: seq<string>): string
  {
    if ls == [] then [] else ls[0] + Concat(ls[1..])
  }

  /**
   * Iterating over a text file, on text taken after newline translation: each line keeps its
   * '\n', a last line without one is kept too, and '\r' is an ordinary character.
   */
  function Lines(text: string): (ls: seq<string>)
    ensures Concat(ls) == text
    decreases |text|
  {
    if text == [] then []
    else
      var i := IndexOf(text, '\n');
      if i == |text| then [text]
      else
        assert text == text[..i + 1] + text[i + 1..];
        [text[..i + 1]] + Lines(text[i + 1..])
  }

  /** A line as file iteration yields it: non-empty, with a '\n' at most at its end. */
  predicate Shaped(line: string)
  {
    line != [] && '\n' !in line[..|line| - 1]
  }

  predicate Terminated(line: string)
  {
    line != [] && line[|line| - 1] == '\n'
  }

  /** Every line is shaped and every line but the last is terminated. */
  predicate WellSplit(ls: seq<string>)
  {
    (forall i :: 0 <= i < |ls| ==> Shaped(ls[i])) &&
    (forall i :: 0 <= i < |ls| - 1 ==> Terminated(ls[i]))
  }

  /** The key and value of a line `load_config` keeps, or None for a line it skips. */
  function ParseLine(line: string): Option<(string, string)>
  {
    var t := Strip(line);
    var n := IndexOf(t, '=');
    if t != [] && t[0] != '#' && n < |t| then Some((Strip(t[..n]), Strip(t[n + 1..]))) else None
  }

  function KeyOf(line: string): Option<string>
  {
    match ParseLine(line)
    case Some(kv) => Some(kv.0)
    case None => None
  }

  /** A line's parse result: the key and value it contributes, if any. */
  type Entry = Option<(string, string)>

  function Entries(lines: seq<string>): (es: seq<Entry>)
    ensures |es| == |lines|
  {
    seq(|lines|, i requires 0 <= i < |lines| => ParseLine(lines[i]))
  }

  /** The dict built from parse results one at a time (`config[key] = value`). */
  function Fold(es: seq<Entry>): Dict
  {
    if es == [] then []
    else
      var d := Fold(es[..|es| - 1]);
      match es[|es| - 1]
      case Some(kv) => PyDict.Set(d, kv.0, kv.1)
      case None => d
  }

  /** `load_config`'s dict for the given lines. */
  function Parsed(lines: seq<string>): Dict
  {
    Fold(Entries(lines))
  }

  /** The value of the last entry whose key is `k`: an independent reading of "the last line wins". */
  function LastValue(es: seq<Entry>, k: string): Option<string>
  {
    if es == [] then None
    else match es[|es| - 1]
      case Some(kv) => if kv.0 == k then Some(kv.1) else LastValue(es[..|es| - 1], k)
      case None => LastValue(es[..|es| - 1], k)
  }

  /** No whitespace at either end: what `str.strip()` leaves unchanged (see UnpaddedStrip). */
  predicate Unpadded(s: string)
  {
    s == [] || (!IsSpace(s[0]) && !IsSpace(s[|s| - 1]))
  }

  /** A key as `load_config` produces it (and as a rewritten line reads back). */
  predicate CleanKey(k: string)
  {
    Unpadded(k) && '=' !in k && '\n' !in k && (k == [] || k[0] != '#')
  }

  predicate CleanValue(v: string)
  {
    Unpadded(v) && '\n' !in v
  }

  ghost predicate CleanEntries(d: Dict)
  {
    forall i :: 0 <= i < |d| ==> CleanKey(d[i].0) && CleanValue(d[i].1)
  }

  // ---------------------------------------------------------------- stripping

  /** `lstrip` returns a suffix. */
  lemma {:induction false} TrimStartSuffix(s: string)
    ensures TrimStart(s) == s[|s| - |TrimStart(s)|..]
    decreases |s|
  {
    if s != [] && IsSpace(s[0]) {
      TrimStartSuffix(s[1..]);
    }
  }

  /** `rstrip` returns a prefix. */
  lemma {:induction false} TrimEndPrefix(s: string)
    ensures TrimEnd(s) == s[..|TrimEnd(s)|]
    decreases |s|
  {
    if s != [] && IsSpace(s[|s| - 1]) {
      TrimEndPrefix(s[..|s| - 1]);
    }
  }

  /** `lstrip` removes whitespace only. */
  lemma {:induction false} TrimStartSpaces(s: string)
    ensures forall i :: 0 <= i < |s| - |TrimStart(s)| ==> IsSpace(s[i])
    decreases |s|
  {
    if s != [] && IsSpace(s[0]) {
      TrimStartSpaces(s[1..]);
      assert forall i :: 1 <= i < |s| ==> s[i] == s[1..][i - 1];
    }
  }

  /** `rstrip` removes whitespace only. */
  lemma {:induction false} TrimEndSpaces(s: string)
    ensures forall i :: |TrimEnd(s)| <= i < |s| ==> IsSpace(s[i])
    decreases |s|
  {
    if s != [] && IsSpace(s[|s| - 1]) {
      TrimEndSpaces(s[..|s| - 1]);
    }
  }

  lemma TrimStartKeeps(s: string)
    requires s == [] || !IsSpace(s[0])
    ensures TrimStart(s) == s
  {
  }

  lemma TrimEndKeeps(s: string)
    requires s == [] || !IsSpace(s[|s| - 1])
    ensures TrimEnd(s) == s
  {
  }

  /** What `str.strip()` returns has no whitespace at either end. */
  lemma StripUnpadded(s: string)
    ensures Unpadded(Strip(s))
  {
    var e := TrimEnd(s);
    var r := TrimStart(e);
    TrimStartSuffix(e);
    if r != [] {
      assert r[|r| - 1] == e[|e| - 1];
    }
  }

  /** A string with no whitespace at either end is its own strip. */
  lemma UnpaddedStrip(s: string)
    requires Unpadded(s)
    ensures Strip(s) == s
  {
    TrimEndKeeps(s);
    TrimStartKeeps(s);
  }

  /** Stripping twice is stripping once. */
  lemma StripIdempotent(s: string)
    ensures Strip(Strip(s)) == Strip(s)
  {
    StripUnpadded(s);
    UnpaddedStrip(Strip(s));
  }

  /** Stripping never brings in a character. */
  lemma StripKeepsOut(s: string, c: char)
    requires c !in s
    ensures c !in Strip(s)
  {
    var e := TrimEnd(s);
    TrimEndPrefix(s);
    assert c !in e;
    var r := TrimStart(e);
    TrimStartSuffix(e);
  }

  lemma {:induction false} TrimEndAppend(a: string, b: string)
    requires a != [] && !IsSpace(a[|a| - 1])
    ensures TrimEnd(a + b) == a + TrimEnd(b)
    decreases |b|
  {
    if b != [] && IsSpace(b[|b| - 1]) {
      assert (a + b)[..|a + b| - 1] == a + b[..|b| - 1];
      TrimEndAppend(a, b[..|b| - 1]);
    } else if b == [] {
      assert a + b == a;
      TrimEndKeeps(a);
    }
  }

  lemma TrimEndNewline(s: string)
    ensures TrimEnd(s + "\n") == TrimEnd(s)
  {
    assert (s + "\n")[..|s|] == s;
  }

  /** A line and the same line with a '\n' added parse alike. */
  lemma ParseNewline(line: string)
    ensures ParseLine(line + "\n") == ParseLine(line)
  {
    TrimEndNewline(line);
  }

  // ---------------------------------------------------------------- lines

  /** `IndexOf` finds the first occurrence: no earlier character is `c`. */
  lemma {:induction false} IndexOfFirst(s: string, c: char)
    ensures forall j :: 0 <= j < IndexOf(s, c) ==> s[j] != c
    decreases |s|
  {
    if s != [] && s[0] != c {
      IndexOfFirst(s[1..], c);
      assert forall j :: 1 <= j < |s| ==> s[j] == s[1..][j - 1];
    }
  }

  lemma {:induction false} IndexOfAppend(a: string, b: string, c: char)
    requires c !in a
    ensures IndexOf(a + b, c) == |a| + IndexOf(b, c)
    decreases |a|
  {
    if a != [] {
      assert (a + b)[1..] == a[1..] + b;
      IndexOfAppend(a[1..], b, c);
    } else {
      assert a + b == b;
    }
  }

  /** Iterating over the text yields well-split lines; all are terminated when the text ends with '\n'. */
  lemma {:induction false} LinesShape(text: string)
    ensures WellSplit(Lines(text))
    ensures text != [] && text[|text| - 1] == '\n' ==> forall i :: 0 <= i < |Lines(text)| ==> Terminated(Lines(text)[i])
    decreases |text|
  {
    if text != [] {
      var i := IndexOf(text, '\n');
      IndexOfFirst(text, '\n');
      if i < |text| {
        var head := text[..i + 1];
        var rest := text[i + 1..];
        assert head[..i] == text[..i];
        LinesShape(rest);
        var ls := Lines(text);
        assert ls == [head] + Lines(rest);
        if rest != [] {
          assert rest[|rest| - 1] == text[|text| - 1];
        }
      }
    }
  }

  /** A terminated shaped line in front of any text is the first line of the result. */
  lemma LinesCons(head: string, rest: string)
    requires Shaped(head) && Terminated(head)
    ensures Lines(head + rest) == [head] + Lines(rest)
  {
    var text := head + rest;
    var n := |head| - 1;
    assert head == head[..n] + "\n";
    assert '\n' !in head[..n];
    IndexOfAppend(head[..n], "\n" + rest, '\n');
    assert text == head[..n] + ("\n" + rest);
    assert IndexOf("\n" + rest, '\n') == 0;
    assert text[..n + 1] == head;
    assert text[n + 1..] == rest;
  }

  /** A shaped line alone is read back as itself. */
  lemma LinesSingle(line: string)
    requires Shaped(line)
    ensures Lines(line) == [line]
  {
    assert line + [] == line;
    if Terminated(line) {
      LinesCons(line, []);
    } else {
      assert line == line[..|line| - 1] + [line[|line| - 1]];
      IndexOfAppend(line, [], '\n');
    }
  }

  /** `c in s` is what `IndexOf` finding a position means. */
  lemma IndexOfFound(s: string, c: char)
    ensures c in s <==> IndexOf(s, c) < |s|
  {
    IndexOfFirst(s, c);
  }

  /** Joining well-split lines and iterating over the result gives the same lines back. */
  lemma {:induction false} LinesConcat(ls: seq<string>)
    requires WellSplit(ls)
    ensures Lines(Concat(ls)) == ls
  {
    if ls != [] {
      var head := ls[0];
      assert WellSplit(ls[1..]) by {
        assert forall i :: 0 <= i < |ls| - 1 ==> ls[1..][i] == ls[i + 1];
      }
      LinesConcat(ls[1..]);
      if |ls| == 1 {
        assert Concat(ls) == head + [] == head;
        LinesSingle(head);
      } else {
        assert Terminated(ls[0]);
        LinesCons(head, Concat(ls[1..]));
      }
    }
  }

  // ---------------------------------------------------------------- parsing a line

  /** A line is skipped exactly when, stripped, it is empty, a comment, or holds no '='. */
  lemma ParseSkips(line: string)
    ensures ParseLine(line) == None <==> (Strip(line) == [] || Strip(line)[0] == '#' || '=' !in Strip(line))
  {
    if Strip(line) != [] && Strip(line)[0] != '#' && '=' in Strip(line) {
      IndexOfFound(Strip(line), '=');
    }
  }

  /** A kept line splits at its first '=' into the stripped key and the stripped value. */
  lemma ParseSplitsAtFirstEq(line: string, a: string, b: string)
    requires Strip(line) == a + "=" + b && '=' !in a && Strip(line)[0] != '#'
    ensures ParseLine(line) == Some((Strip(a), Strip(b)))
  {
    var t := Strip(line);
    assert t == a + ("=" + b);
    IndexOfAppend(a, "=" + b, '=');
    assert IndexOf("=" + b, '=') == 0;
    var n := IndexOf(t, '=');
    assert n == |a|;
    assert t[..n] == a;
    assert t[n + 1..] == b;
    assert t != [] && t[0] != '#' && n < |t|;
  }

  /** What `save_config` writes for a key parses back to that key and the stripped value. */
  lemma RenderParses(k: string, v: string)
    requires CleanKey(k)
    ensures ParseLine(k + "=" + v + "\n") == Some((k, Strip(v)))
  {
    var a := k + "=";
    assert k + "=" + v + "\n" == a + (v + "\n");
    TrimEndAppend(a, v + "\n");
    TrimEndNewline(v);
    var t := a + TrimEnd(v);
    UnpaddedStrip(k);
    assert t[0] == if k == [] then '=' else k[0];
    TrimStartKeeps(t);
    assert Strip(k + "=" + v + "\n") == k + "=" + TrimEnd(v);
    ParseSplitsAtFirstEq(k + "=" + v + "\n", k, TrimEnd(v));
    TrimEndKeeps(TrimEnd(v));
  }

  /** A shaped line has no '\n' left once stripped. */
  lemma StripShaped(line: string)
    requires Shaped(line)
    ensures '\n' !in Strip(line)
  {
    var e := TrimEnd(line);
    TrimEndPrefix(line);
    assert '\n' !in e by {
      forall j | 0 <= j < |e|
        ensures e[j] != '\n'
      {
        assert e[j] == line[j];
        if j < |line| - 1 {
          assert line[..|line| - 1][j] == line[j];
        } else {
          assert !IsSpace(e[|e| - 1]);
        }
      }
    }
    StripKeepsOut(e, '\n');
    assert TrimEnd(e) == e;
  }

  /** The two halves around the first '=' of a stripped line strip to a clean key and value. */
  lemma HalvesClean(t: string, n: nat)
    requires t != [] && !IsSpace(t[0]) && t[0] != '#' && '\n' !in t
    requires n == IndexOf(t, '=') && n < |t|
    ensures CleanKey(Strip(t[..n])) && CleanValue(Strip(t[n + 1..]))
  {
    var k := Strip(t[..n]);
    IndexOfFirst(t, '=');
    assert '\n' !in t[..n] && '\n' !in t[n + 1..];
    StripKeepsOut(t[..n], '\n');
    StripKeepsOut(t[n + 1..], '\n');
    StripKeepsOut(t[..n], '=');
    StripUnpadded(t[..n]);
    StripUnpadded(t[n + 1..]);
    if k != [] {
      var ke := TrimEnd(t[..n]);
      TrimEndPrefix(t[..n]);
      assert ke != [];
      assert ke[0] == t[0];
      TrimStartKeeps(ke);
    }
  }

  /** The key and value of a kept line of a shaped line are clean. */
  lemma ParseClean(line: string)
    requires Shaped(line) && ParseLine(line).Some?
    ensures CleanKey(ParseLine(line).value.0) && CleanValue(ParseLine(line).value.1)
  {
    var t := Strip(line);
    var n := IndexOf(t, '=');
    StripShaped(line);
    StripUnpadded(line);
    assert t != [] && t[0] != '#' && n < |t|;
    HalvesClean(t, n);
    assert ParseLine(line) == Some((Strip(t[..n]), Strip(t[n + 1..])));
  }

  // ---------------------------------------------------------------- the whole file

  /** `config[key] = value` for a later line overrides an earlier one: the last line wins. */
  lemma {:induction false} FoldGet(es: seq<Entry>, k: string)
    ensures PyDict.Get(Fold(es), k) == LastValue(es, k)
  {
    if es != [] {
      var init := es[..|es| - 1];
      FoldGet(init, k);
      match es[|es| - 1] {
        case Some(kv) => PyDict.GetAfterSet(Fold(init), kv.0, kv.1, k);
        case None =>
      }
    }
  }

  lemma {:induction false} LastValueFound(es: seq<Entry>, k: string)
    ensures LastValue(es, k).Some? <==> exists i :: 0 <= i < |es| && es[i].Some? && es[i].value.0 == k
  {
    if es != [] {
      var init := es[..|es| - 1];
      LastValueFound(init, k);
      assert forall i :: 0 <= i < |init| ==> init[i] == es[i];
    }
  }

  /** A key is in `load_config`'s dict exactly when some kept line carries it, and it reads as the last such line. */
  lemma ParsedGet(lines: seq<string>, k: string)
    ensures PyDict.Get(Parsed(lines), k) == LastValue(Entries(lines), k)
    ensures k in PyDict.Keys(Parsed(lines)) <==> exists i :: 0 <= i < |lines| && KeyOf(lines[i]) == Some(k)
  {
    var es := Entries(lines);
    FoldGet(es, k);
    PyDict.GetFindsKeys(Parsed(lines), k);
    LastValueFound(es, k);
    assert forall i :: 0 <= i < |lines| ==> (KeyOf(lines[i]) == Some(k) <==> es[i].Some? && es[i].value.0 == k);
  }

  /** The dict has distinct keys. */
  lemma {:induction false} FoldDistinct(es: seq<Entry>)
    ensures PyDict.DistinctKeys(Fold(es))
  {
    if es != [] {
      FoldDistinct(es[..|es| - 1]);
      match es[|es| - 1] {
        case Some(kv) => PyDict.SetKeepsDistinct(Fold(es[..|es| - 1]), kv.0, kv.1);
        case None =>
      }
    }
  }

  /** Clean entries fold into a dict of clean entries. */
  lemma {:induction false} FoldClean(es: seq<Entry>)
    requires forall i :: 0 <= i < |es| && es[i].Some? ==> CleanKey(es[i].value.0) && CleanValue(es[i].value.1)
    ensures CleanEntries(Fold(es))
  {
    if es != [] {
      var init := es[..|es| - 1];
      assert forall i :: 0 <= i < |init| ==> init[i] == es[i];
      FoldClean(init);
      match es[|es| - 1] {
        case Some(kv) => PyDict.SetEntries(Fold(init), kv.0, kv.1);
        case None =>
      }
    }
  }

  /** Every key and value read from shaped lines is clean. */
  lemma ParsedClean(lines: seq<string>)
    requires forall i :: 0 <= i < |lines| ==> Shaped(lines[i])
    ensures CleanEntries(Parsed(lines))
  {
    var es := Entries(lines);
    forall i | 0 <= i < |es| && es[i].Some?
      ensures CleanKey(es[i].value.0) && CleanValue(es[i].value.1)
    {
      ParseClean(lines[i]);
    }
    FoldClean(es);
  }

  /** Loading one more line: it sets its key, or changes nothing when it is skipped. */
  lemma ParsedSnoc(lines: seq<string>, i: nat)
    requires i < |lines|
    ensures Parsed(lines[..i + 1]) ==
      match ParseLine(lines[i])
      case Some(kv) => PyDict.Set(Parsed(lines[..i]), kv.0, kv.1)
      case None => Parsed(lines[..i])
  {
    var es := Entries(lines[..i + 1]);
    assert es[..i] == Entries(lines[..i]);
    assert es[i] == ParseLine(lines[i]);
  }

  /** Reading entries that follow others: the later part wins where it has the key. */
  lemma {:induction false} LastValueAppend(a: seq<Entry>, b: seq<Entry>, k: string)
    ensures LastValue(a + b, k) == if LastValue(b, k).Some? then LastValue(b, k) else LastValue(a, k)
    decreases |b|
  {
    if b == [] {
      assert a + b == a;
    } else {
      assert (a + b)[..|a + b| - 1] == a + b[..|b| - 1];
      LastValueAppend(a, b[..|b| - 1], k);
    }
  }

  /** The entry at `i` decides when no later entry has the key. */
  lemma {:induction false} LastValueAt(es: seq<Entry>, k: string, i: nat, v: string)
    requires i < |es| && es[i] == Some((k, v))
    requires forall j :: i < j < |es| ==> es[j].None? || es[j].value.0 != k
    ensures LastValue(es, k) == Some(v)
    decreases |es|
  {
    if i < |es| - 1 {
      var init := es[..|es| - 1];
      assert forall j :: 0 <= j < |init| ==> init[j] == es[j];
      LastValueAt(init, k, i, v);
    }
  }

  /** The entries of lines that follow others. */
  lemma EntriesAppend(a: seq<string>, b: seq<string>)
    ensures Entries(a + b) == Entries(a) + Entries(b)
  {
    forall i | 0 <= i < |a + b|
      ensures Entries(a + b)[i] == (Entries(a) + Entries(b))[i]
    {
      if i < |a| {
        assert (a + b)[i] == a[i];
      } else {
        assert (a + b)[i] == b[i - |a|];
      }
    }
  }
}
