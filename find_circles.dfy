/**
 * find_circles.py: the text filter for names, the distance between circle centres, the check of
 * the rectangle given as fractions of the image, and the MATRICULA filter that groups detected
 * circles into rows and drops the rows whose size is off.
 */
module FindCircles {
  import opened Common

  // ---------------------------------------------------------------- replace_all_not_used

  /** The characters `replace_all_not_used` keeps: the digits and the upper-case ASCII letters. */
  predicate Allowed(c: char)
  {
    '0' <= c <= '9' || 'A' <= c <= 'Z'
  }

  /** `replace_all_not_used(text)`. */
  function ReplaceAllNotUsed(text: string): (r: string)
    ensures |r| <= |text|
  {
    Filter(Allowed, text)
  }

  /** Each allowed character is kept as often as it occurs; every other character is dropped. */
  lemma {:induction false} ReplaceCounts(text: string, c: char)
    ensures multiset(ReplaceAllNotUsed(text))[c] == if Allowed(c) then multiset(text)[c] else 0
  {
    if text != [] {
      ReplaceCounts(text[1..], c);
      MultisetOfCons(text);
      var head := if Allowed(text[0]) then [text[0]] else [];
      assert ReplaceAllNotUsed(text) == head + ReplaceAllNotUsed(text[1..]);
    }
  }

  /**
   * The result keeps the order of the input, holds only digits and upper-case letters (lower-case
   * letters are dropped, not converted), a second application changes nothing, and a text made
   * only of allowed characters comes back unchanged.
   */
  lemma ReplaceProperties(text: string)
    ensures IsSubsequence(ReplaceAllNotUsed(text), text)
    ensures forall i :: 0 <= i < |ReplaceAllNotUsed(text)| ==> Allowed(ReplaceAllNotUsed(text)[i])
    ensures ReplaceAllNotUsed(ReplaceAllNotUsed(text)) == ReplaceAllNotUsed(text)
    ensures (forall i :: 0 <= i < |text| ==> Allowed(text[i])) ==> ReplaceAllNotUsed(text) == text
  {
    FilterIsSubsequence(Allowed, text);
    FilterIdempotent(Allowed, text);
    if forall i :: 0 <= i < |text| ==> Allowed(text[i]) {
      FilterAll(Allowed, text);
    }
  }

  // ---------------------------------------------------------------- distance_between_points

  /** `distance_between_points`: half the squared Euclidean distance (not its square root). */
  function Distance(x1: real, y1: real, x2: real, y2: real): real
  {
    ((x1 - x2) * (x1 - x2) + (y1 - y2) * (y1 - y2)) / 2.0
  }

  /** The distance is symmetric, never negative, and zero for equal points. */
  lemma DistanceProperties(x1: real, y1: real, x2: real, y2: real)
    ensures Distance(x1, y1, x2, y2) == Distance(x2, y2, x1, y1)
    ensures Distance(x1, y1, x2, y2) >= 0.0
    ensures x1 == x2 && y1 == y2 ==> Distance(x1, y1, x2, y2) == 0.0
  {
  }

  // ---------------------------------------------------------------- the rectangle

  /** A box given as fractions of the image's width and height. */
  datatype Rect = Rect(x: real, y: real, width: real, height: real)

  predicate Fraction(v: real)
  {
    0.0 <= v <= 1.0
  }

  /**
   * The check `find_circles_cv2` makes before any detection: a rectangle with a component above
   * 1 or below 0 is refused with a ValueError.
   */
  function CheckRectangle(r: Rect): (res: Result<Rect, string>)
    ensures res.Ok? <==> Fraction(r.x) && Fraction(r.y) && Fraction(r.width) && Fraction(r.height)
    ensures res.Ok? ==> res.value == r
  {
    if r.x > 1.0 || r.y > 1.0 || r.width > 1.0 || r.height > 1.0 || r.x < 0.0 || r.y < 0.0 || r.width < 0.0 || r.height < 0.0
    then Err("The rectangle values must be between 0 and 1.")
    else Ok(r)
  }

  // ---------------------------------------------------------------- the MATRICULA row filter

  /** One detected circle: its centre, radius, whether it is filled, and its random hex id. */
  datatype Circle = Circle(x: real, y: real, radius: real, filled: bool, id: string)

  /** A circle belongs with a row when it lies within 1.5 circle sizes of the row's first circle. */
  predicate Near(c: Circle, first: Circle, circleSize: real)
  {
    Distance(c.x, c.y, first.x, first.y) < circleSize * 1.5
  }

  /** All the circles of all rows, counted with multiplicity. */
  function Bag(rows: seq<seq<Circle>>): multiset<Circle>
  {
    if rows == [] then multiset{} else Bag(rows[..|rows| - 1]) + multiset(rows[|rows| - 1])
  }

  /** Rows are non-empty and hold between them exactly the given circles. */
  ghost predicate Partition(rows: seq<seq<Circle>>, circles: seq<Circle>)
  {
    (forall k :: 0 <= k < |rows| ==> rows[k] != []) && Bag(rows) == multiset(circles)
  }

  /**
   * First fit: every later circle of a row is near the row's first circle, and no circle is near
   * the first circle of an earlier row.
   */
  ghost predicate FirstFit(rows: seq<seq<Circle>>, circleSize: real)
    requires forall k :: 0 <= k < |rows| ==> rows[k] != []
  {
    (forall k, j :: 0 <= k < |rows| && 0 < j < |rows[k]| ==> Near(rows[k][j], rows[k][0], circleSize)) &&
    (forall k, j, e :: 0 <= e < k < |rows| && 0 <= j < |rows[k]| ==> !Near(rows[k][j], rows[e][0], circleSize))
  }

  lemma {:induction false} BagUpdate(rows: seq<seq<Circle>>, k: nat, c: Circle)
    requires k < |rows|
    ensures Bag(rows[k := rows[k] + [c]]) == Bag(rows) + multiset{c}
  {
    var n := |rows| - 1;
    var after := rows[k := rows[k] + [c]];
    if k < n {
      assert after[..n] == rows[..n][k := rows[k] + [c]];
      BagUpdate(rows[..n], k, c);
    } else {
      assert after[..n] == rows[..n];
    }
  }

  lemma BagSnoc(rows: seq<seq<Circle>>, row: seq<Circle>)
    ensures Bag(rows + [row]) == Bag(rows) + multiset(row)
  {
    assert (rows + [row])[..|rows|] == rows;
  }

  /** The index of the first row whose first circle `c` is near, or `|rows|` when there is none. */
  function FirstNear(rows: seq<seq<Circle>>, c: Circle, circleSize: real): (k: nat)
    requires forall e :: 0 <= e < |rows| ==> rows[e] != []
    ensures k <= |rows|
    ensures k < |rows| ==> Near(c, rows[k][0], circleSize)
    ensures forall e :: 0 <= e < k ==> !Near(c, rows[e][0], circleSize)
    decreases |rows|
  {
    if rows == [] || Near(c, rows[0][0], circleSize) then 0
    else
      var k := 1 + FirstNear(rows[1..], c, circleSize);
      assert forall e :: 1 <= e < k ==> rows[e] == rows[1..][e - 1];
      k
  }

  /** One step of the grouping: `c` joins the first row it is near, or opens a row of its own. */
  function Place(rows: seq<seq<Circle>>, c: Circle, circleSize: real): (r: seq<seq<Circle>>)
    requires forall e :: 0 <= e < |rows| ==> rows[e] != []
    ensures forall e :: 0 <= e < |r| ==> r[e] != []
  {
    var k := FirstNear(rows, c, circleSize);
    if k < |rows| then rows[k := rows[k] + [c]] else rows + [[c]]
  }

  /** The rows the grouping loop builds from the circles, taken in order. */
  function FirstFitRows(circles: seq<Circle>, circleSize: real): (rows: seq<seq<Circle>>)
    ensures forall e :: 0 <= e < |rows| ==> rows[e] != []
    decreases |circles|
  {
    if circles == [] then []
    else Place(FirstFitRows(circles[..|circles| - 1], circleSize), circles[|circles| - 1], circleSize)
  }

  /**
   * The inner loop of the grouping: the index of the first row whose first circle is near `c`, or
   * `|rows|` when there is none.
   */
  method FirstNearRow(rows: seq<seq<Circle>>, c: Circle, circleSize: real) returns (k: nat)
    requires forall e :: 0 <= e < |rows| ==> rows[e] != []
    ensures k <= |rows|
    ensures k < |rows| ==> Near(c, rows[k][0], circleSize)
    ensures forall e :: 0 <= e < k ==> !Near(c, rows[e][0], circleSize)
    ensures k == FirstNear(rows, c, circleSize)
  {
    k := 0;
    while k < |rows|
      invariant k <= |rows|
      invariant forall e :: 0 <= e < k ==> !Near(c, rows[e][0], circleSize)
    {
      if Near(c, rows[k][0], circleSize) {
        return;
      }
      k := k + 1;
    }
  }

  /** Adding a circle to the first row it is near keeps the grouping first-fit. */
  lemma JoinRow(rows: seq<seq<Circle>>, k: nat, c: Circle, circleSize: real)
    requires forall e :: 0 <= e < |rows| ==> rows[e] != []
    requires FirstFit(rows, circleSize)
    requires k < |rows| && Near(c, rows[k][0], circleSize)
    requires forall e :: 0 <= e < k ==> !Near(c, rows[e][0], circleSize)
    ensures var after := rows[k := rows[k] + [c]];
      (forall e :: 0 <= e < |after| ==> after[e] != []) && FirstFit(after, circleSize)
  {
    var after := rows[k := rows[k] + [c]];
    assert forall e :: 0 <= e < |after| ==> after[e][0] == rows[e][0];
  }

  /** Opening a row for a circle near no row's first circle keeps the grouping first-fit. */
  lemma OpenRow(rows: seq<seq<Circle>>, c: Circle, circleSize: real)
    requires forall e :: 0 <= e < |rows| ==> rows[e] != []
    requires FirstFit(rows, circleSize)
    requires forall e :: 0 <= e < |rows| ==> !Near(c, rows[e][0], circleSize)
    ensures var after := rows + [[c]];
      (forall e :: 0 <= e < |after| ==> after[e] != []) && FirstFit(after, circleSize)
  {
  }

  /**
   * The grouping partitions the circles (as a multiset, no row empty) and is first-fit: each
   * circle went to the first row it is near, or opened one.
   */
  lemma {:induction false} FirstFitRowsGroup(circles: seq<Circle>, circleSize: real)
    ensures Partition(FirstFitRows(circles, circleSize), circles)
    ensures FirstFit(FirstFitRows(circles, circleSize), circleSize)
    decreases |circles|
  {
    if circles != [] {
      var n := |circles| - 1;
      var rows := FirstFitRows(circles[..n], circleSize);
      var c := circles[n];
      FirstFitRowsGroup(circles[..n], circleSize);
      assert circles == circles[..n] + [c];
      var k := FirstNear(rows, c, circleSize);
      if k < |rows| {
        BagUpdate(rows, k, c);
        JoinRow(rows, k, c, circleSize);
      } else {
        BagSnoc(rows, [c]);
        OpenRow(rows, c, circleSize);
      }
    }
  }

  /** The row-finding loop of the MATRICULA filter: first-fit grouping that partitions the circles. */
  method GroupRows(circles: seq<Circle>, circleSize: real) returns (rows: seq<seq<Circle>>)
    ensures rows == FirstFitRows(circles, circleSize)
    ensures Partition(rows, circles)
    ensures FirstFit(rows, circleSize)
  {
    rows := [];
    for i := 0 to |circles|
      invariant rows == FirstFitRows(circles[..i], circleSize)
    {
      var c := circles[i];
      var k := FirstNearRow(rows, c, circleSize);
      assert circles[..i + 1][..i] == circles[..i];
      if k < |rows| {
        rows := rows[k := rows[k] + [c]];
      } else {
        rows := rows + [[c]];
      }
    }
    assert circles[..|circles|] == circles;
    FirstFitRowsGroup(circles, circleSize);
  }

  /** `[len(row) for row in rows]`. */
  function Lengths(rows: seq<seq<Circle>>): (r: seq<int>)
    ensures |r| == |rows|
  {
    seq(|rows|, k requires 0 <= k < |rows| => |rows[k]|)
  }

  /** How often `v` occurs in `s` (Python's `list.count`). */
  function Count(s: seq<int>, v: int): nat
  {
    multiset(s)[v]
  }

  /**
   * `max(candidates, key=s.count)`: the candidate occurring most often in `s`; among equally
   * frequent candidates the smallest one wins, as with a small set of lengths iterated in
   * ascending order.
   */
  function MostCommonOf(cands: seq<int>, s: seq<int>): (r: int)
    requires cands != []
    ensures r in cands
    ensures forall i :: 0 <= i < |cands| ==>
      Count(s, cands[i]) < Count(s, r) || (Count(s, cands[i]) == Count(s, r) && r <= cands[i])
  {
    if |cands| == 1 then cands[0]
    else
      var rest := MostCommonOf(cands[1..], s);
      if Count(s, cands[0]) > Count(s, rest) || (Count(s, cands[0]) == Count(s, rest) && cands[0] <= rest)
      then cands[0]
      else rest
  }

  /** The most frequent row size, computed over the set of sizes (here: the sizes themselves). */
  function MostCommon(lengths: seq<int>): (r: int)
    requires lengths != []
    ensures r in lengths
    ensures forall i :: 0 <= i < |lengths| ==> Count(lengths, lengths[i]) <= Count(lengths, r)
  {
    MostCommonOf(lengths, lengths)
  }

  /** `abs(len(row) - most_common) > 1`. */
  predicate Off(size: int, mostCommon: int)
  {
    size - mostCommon > 1 || mostCommon - size > 1
  }

  function Ids(row: seq<Circle>): (r: seq<string>)
    ensures |r| == |row|
  {
    seq(|row|, j requires 0 <= j < |row| => row[j].id)
  }

  /** `circles_to_remove` after the loop: the ids of the rows whose size is off, row by row. */
  function RemovedIds(rows: seq<seq<Circle>>, mostCommon: int): seq<string>
  {
    if rows == [] then []
    else
      var last := rows[|rows| - 1];
      RemovedIds(rows[..|rows| - 1], mostCommon) + (if Off(|last|, mostCommon) then Ids(last) else [])
  }

  /** An id is marked for removal exactly when a circle carrying it sits in a row whose size is off. */
  lemma {:induction false} RemovedIdsMeaning(rows: seq<seq<Circle>>, mostCommon: int, id: string)
    ensures id in RemovedIds(rows, mostCommon) <==>
      exists k, j :: 0 <= k < |rows| && 0 <= j < |rows[k]| && rows[k][j].id == id && Off(|rows[k]|, mostCommon)
  {
    if rows != [] {
      var n := |rows| - 1;
      var init := rows[..n];
      RemovedIdsMeaning(init, mostCommon, id);
      if id in RemovedIds(rows, mostCommon) && id !in RemovedIds(init, mostCommon) {
        var j :| 0 <= j < |Ids(rows[n])| && Ids(rows[n])[j] == id;
        assert rows[n][j].id == id;
      }
      if exists k, j :: 0 <= k < |rows| && 0 <= j < |rows[k]| && rows[k][j].id == id && Off(|rows[k]|, mostCommon) {
        var k, j :| 0 <= k < |rows| && 0 <= j < |rows[k]| && rows[k][j].id == id && Off(|rows[k]|, mostCommon);
        if k < n {
          assert init[k][j].id == id;
        } else {
          assert Ids(rows[n])[j] == id;
        }
      }
    }
  }

  /** The loop that accumulates `circles_to_remove`. */
  method CirclesToRemove(rows: seq<seq<Circle>>, mostCommon: int) returns (removed: seq<string>)
    ensures removed == RemovedIds(rows, mostCommon)
  {
    removed := [];
    for k := 0 to |rows|
      invariant removed == RemovedIds(rows[..k], mostCommon)
    {
      assert rows[..k + 1][..k] == rows[..k];
      if Off(|rows[k]|, mostCommon) {
        removed := removed + Ids(rows[k]);
      }
    }
    assert rows[..|rows|] == rows;
  }

  /** `[circle for circle in output_circles if circle["id"] not in circles_to_remove]`. */
  function Survivors(circles: seq<Circle>, removed: seq<string>): (r: seq<Circle>)
    ensures |r| <= |circles|
    ensures forall i :: 0 <= i < |r| ==> r[i].id !in removed
  {
    Filter(KeepId(removed), circles)
  }

  function KeepId(removed: seq<string>): Circle -> bool
  {
    (c: Circle) => c.id !in removed
  }

  lemma SurvivorsInOrder(circles: seq<Circle>, removed: seq<string>, x: Circle)
    ensures IsSubsequence(Survivors(circles, removed), circles)
    ensures x in Survivors(circles, removed) <==> x in circles && x.id !in removed
  {
    FilterIsSubsequence(KeepId(removed), circles);
    FilterMembers(KeepId(removed), circles, x);
  }

  /** Random ids are taken to be pairwise different. */
  ghost predicate DistinctIds(circles: seq<Circle>)
  {
    forall i, j :: 0 <= i < j < |circles| ==> circles[i].id != circles[j].id
  }

  lemma {:induction false} BagHas(rows: seq<seq<Circle>>, k: nat, j: nat)
    requires k < |rows| && j < |rows[k]|
    ensures rows[k][j] in Bag(rows)
  {
    var n := |rows| - 1;
    if k < n {
      assert rows[..n][k] == rows[k];
      BagHas(rows[..n], k, j);
    } else {
      assert rows[n][j] in multiset(rows[n]);
    }
  }

  lemma {:induction false} BagMember(rows: seq<seq<Circle>>, x: Circle)
    requires x in Bag(rows)
    ensures exists k, j :: 0 <= k < |rows| && 0 <= j < |rows[k]| && rows[k][j] == x
  {
    var n := |rows| - 1;
    if x in Bag(rows[..n]) {
      BagMember(rows[..n], x);
      var k, j :| 0 <= k < n && 0 <= j < |rows[..n][k]| && rows[..n][k][j] == x;
      assert rows[k][j] == x;
    } else {
      assert x in rows[n];
      var j :| 0 <= j < |rows[n]| && rows[n][j] == x;
    }
  }

  /** A value at two different indices occurs at least twice. */
  lemma SeqTwice(s: seq<Circle>, a: nat, b: nat)
    requires a < b < |s| && s[a] == s[b]
    ensures multiset(s)[s[a]] >= 2
  {
    assert s == s[..a] + [s[a]] + s[a + 1..b] + [s[b]] + s[b + 1..];
  }

  /** A circle found at two different positions of the rows occurs twice among them. */
  lemma {:induction false} BagTwice(rows: seq<seq<Circle>>, k1: nat, j1: nat, k2: nat, j2: nat)
    requires k1 < |rows| && j1 < |rows[k1]| && k2 < |rows| && j2 < |rows[k2]|
    requires (k1, j1) != (k2, j2) && rows[k1][j1] == rows[k2][j2]
    ensures Bag(rows)[rows[k1][j1]] >= 2
  {
    var n := |rows| - 1;
    var x := rows[k1][j1];
    var init := rows[..n];
    if k1 < n && k2 < n {
      assert init[k1] == rows[k1] && init[k2] == rows[k2];
      BagTwice(init, k1, j1, k2, j2);
    } else if k1 == n && k2 == n {
      if j1 < j2 { SeqTwice(rows[n], j1, j2); } else { SeqTwice(rows[n], j2, j1); }
    } else if k1 < n {
      assert init[k1] == rows[k1];
      BagHas(init, k1, j1);
      assert rows[n][j2] in multiset(rows[n]);
    } else {
      assert init[k2] == rows[k2];
      BagHas(init, k2, j2);
      assert rows[n][j1] in multiset(rows[n]);
    }
  }

  lemma {:induction false} DistinctOnce(circles: seq<Circle>, x: Circle)
    requires DistinctIds(circles)
    ensures multiset(circles)[x] <= 1
  {
    if circles != [] {
      MultisetOfCons(circles);
      var rest := circles[1..];
      assert DistinctIds(rest) by {
        forall i, j | 0 <= i < j < |rest|
          ensures rest[i].id != rest[j].id
        {
          assert rest[i] == circles[i + 1] && rest[j] == circles[j + 1];
        }
      }
      DistinctOnce(rest, x);
    }
  }

  /**
   * With pairwise different ids, each circle sits in exactly one row, and it survives the filter
   * exactly when the size of that row is within 1 of the most common size.
   */
  lemma SurvivesIffRowFits(circles: seq<Circle>, rows: seq<seq<Circle>>, mostCommon: int, i: nat)
    requires Partition(rows, circles) && DistinctIds(circles) && i < |circles|
    ensures exists k, j :: 0 <= k < |rows| && 0 <= j < |rows[k]| && rows[k][j] == circles[i]
    ensures forall k, j :: 0 <= k < |rows| && 0 <= j < |rows[k]| && rows[k][j] == circles[i] ==>
      (circles[i] in Survivors(circles, RemovedIds(rows, mostCommon)) <==> !Off(|rows[k]|, mostCommon))
  {
    var c := circles[i];
    var removed := RemovedIds(rows, mostCommon);
    assert c in multiset(circles);
    BagMember(rows, c);
    SurvivorsInOrder(circles, removed, c);
    RemovedIdsMeaning(rows, mostCommon, c.id);
    forall k, j | 0 <= k < |rows| && 0 <= j < |rows[k]| && rows[k][j] == c
      ensures c.id in removed <==> Off(|rows[k]|, mostCommon)
    {
      if c.id in removed {
        var k2, j2 :| 0 <= k2 < |rows| && 0 <= j2 < |rows[k2]| && rows[k2][j2].id == c.id && Off(|rows[k2]|, mostCommon);
        BagHas(rows, k2, j2);
        var p :| 0 <= p < |circles| && circles[p] == rows[k2][j2];
        assert p == i;
        if (k2, j2) != (k, j) {
          BagTwice(rows, k, j, k2, j2);
          DistinctOnce(circles, c);
          assert false;
        }
      }
    }
  }

  /** Every row holds a circle, so there are rows exactly when there are circles. */
  lemma NoRowsNoCircles(rows: seq<seq<Circle>>, circles: seq<Circle>)
    requires Partition(rows, circles)
    ensures rows == [] <==> circles == []
  {
    if rows != [] {
      BagHas(rows, 0, 0);
      assert rows[0][0] in multiset(circles);
    }
  }

  /**
   * The filter at the end of `find_circles_cv2`: it runs only when a circle size is given and the
   * box is a MATRICULA box; it groups the circles into rows, finds the most common row size
   * (`max` of an empty set raises ValueError when there are no circles) and keeps, in their
   * original order, the circles whose id was not marked for removal.
   */
  method FilterCircles(circles: seq<Circle>, circleSize: Option<real>, matricula: bool)
    returns (res: Result<seq<Circle>, string>)
    ensures !(circleSize.Some? && matricula) ==> res == Ok(circles)
    ensures circleSize.Some? && matricula ==>
      var rows := FirstFitRows(circles, circleSize.value);
      (res.Err? <==> circles == []) &&
      (res.Ok? ==> res.value == Survivors(circles, RemovedIds(rows, MostCommon(Lengths(rows)))))
  {
    if circleSize.None? || !matricula {
      return Ok(circles);
    }
    var grouped := GroupRows(circles, circleSize.value);
    NoRowsNoCircles(grouped, circles);
    if grouped == [] {
      return Err("max() arg is an empty sequence");
    }
    var mostCommon := MostCommon(Lengths(grouped));
    var removed := CirclesToRemove(grouped, mostCommon);
    res := Ok(Survivors(circles, removed));
  }
}
