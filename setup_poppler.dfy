/**
 * setup_poppler.py: the percentage `report_progress` hands to its callback while downloading, the
 * 30-cell bar `show_progress` draws for it, and the choice of extractor in `extract_archive`.
 */
module SetupPoppler {
  import opened Common
  import opened PyText

  // ---------------------------------------------------------------- report_progress

  /**
   * `report_progress(chunk_num, chunk_size, total_size)`: the value passed to the callback, or
   * `None` when there is no callback or the total size is unknown (not positive). Python's `//`
   * floors, which is Dafny's `/` for a positive divisor.
   */
  function ReportProgress(hasCallback: bool, chunkNum: int, chunkSize: int, totalSize: int): (r: Option<int>)
    ensures r.Some? <==> hasCallback && totalSize > 0
    ensures r.Some? ==> r.value <= 100
    ensures r.Some? && chunkNum >= 0 && chunkSize >= 0 ==> r.value >= 0
  {
    if hasCallback && totalSize > 0 then
      var p := (chunkNum * chunkSize * 100) / totalSize;
      Some(if p < 100 then p else 100)
    else None
  }

  lemma DivMonotone(a: int, b: int, d: int)
    requires a <= b && d > 0
    ensures a / d <= b / d
  {
    if a / d > b / d {
      MulMonotone(d, b / d + 1, a / d);
    }
  }

  lemma DivAtLeast(n: int, d: int, k: int)
    requires d > 0 && n >= d * k
    ensures n / d >= k
  {
    var q := n / d;
    if q < k {
      MulMonotone(d, q + 1, k);
    }
  }

  lemma MulMonotone(d: int, x: int, y: int)
    requires d > 0 && x <= y
    ensures d * x <= d * y
  {
  }

  /** As more chunks arrive the reported percentage never goes down. */
  lemma ProgressMonotone(chunkSize: int, totalSize: int, earlier: int, later: int)
    requires chunkSize >= 0 && totalSize > 0 && earlier <= later
    ensures ReportProgress(true, earlier, chunkSize, totalSize).value <= ReportProgress(true, later, chunkSize, totalSize).value
  {
    assert earlier * chunkSize * 100 <= later * chunkSize * 100 by {
      MulMonotone(chunkSize * 100 + 1, earlier, later);
      assert earlier * chunkSize * 100 == (chunkSize * 100) * earlier;
      assert later * chunkSize * 100 == (chunkSize * 100) * later;
      if chunkSize > 0 {
        MulMonotone(chunkSize * 100, earlier, later);
      }
    }
    DivMonotone(earlier * chunkSize * 100, later * chunkSize * 100, totalSize);
  }

  /** Once the chunks cover the whole size the bar reports exactly 100. */
  lemma ProgressComplete(chunkNum: int, chunkSize: int, totalSize: int)
    requires totalSize > 0 && chunkNum * chunkSize >= totalSize
    ensures ReportProgress(true, chunkNum, chunkSize, totalSize) == Some(100)
  {
    DivAtLeast(chunkNum * chunkSize * 100, totalSize, 100);
  }

  // ---------------------------------------------------------------- show_progress

  /** `c * n` for a one-character string: empty when `n` is not positive. */
  function Repeat(c: char, n: int): (r: string)
    ensures |r| == if n > 0 then n else 0
    ensures forall i :: 0 <= i < |r| ==> r[i] == c
  {
    if n <= 0 then [] else seq(n, _ => c)
  }

  /** `int(30 * progress / 100)`: the true quotient truncated toward zero. */
  function Filled(progress: int): int
  {
    if progress >= 0 then (30 * progress) / 100 else -((-30 * progress) / 100)
  }

  /** The bar `show_progress` prints: the filled cells, then the empty ones. */
  function Bar(progress: int): string
  {
    Repeat('█', Filled(progress)) + Repeat('░', 30 - Filled(progress))
  }

  /**
   * For a percentage in 0..100 the bar is exactly 30 cells: cell `i` is filled exactly when
   * `i < floor(30 * progress / 100)`.
   */
  lemma BarCells(progress: int)
    requires 0 <= progress <= 100
    ensures |Bar(progress)| == 30
    ensures forall i :: 0 <= i < 30 ==> Bar(progress)[i] == if i < (30 * progress) / 100 then '█' else '░'
  {
    var f := Filled(progress);
    assert 0 <= f <= 30;
    var filled := Repeat('█', f);
    forall i | 0 <= i < 30
      ensures Bar(progress)[i] == if i < f then '█' else '░'
    {
      if i >= f {
        assert Bar(progress)[i] == Repeat('░', 30 - f)[i - f];
      }
    }
  }

  /** 0 draws an empty bar and 100 a full one. */
  lemma BarEnds()
    ensures Bar(0) == Repeat('░', 30)
    ensures Bar(100) == Repeat('█', 30)
  {
    assert Filled(0) == 0;
    assert Filled(100) == 30;
    assert Repeat('█', 0) == [];
    assert Repeat('░', 0) == [];
  }

  /** A negative percentage draws only empty cells, more than 30 of them. */
  lemma BarNegative(progress: int)
    requires progress < 0
    ensures Bar(progress) == Repeat('░', 30 - Filled(progress))
    ensures |Bar(progress)| >= 30
  {
    assert Filled(progress) <= 0;
    assert Repeat('█', Filled(progress)) == [];
  }

  // ---------------------------------------------------------------- extract_archive

  /** `s.endswith(tail)`. */
  predicate EndsWith(s: string, tail: string)
  {
    |tail| <= |s| && s[|s| - |tail|..] == tail
  }

  /** `name.rfind('.')`: the index of the last dot, or -1. */
  function LastDot(name: string): (i: int)
    ensures -1 <= i < |name|
    ensures i >= 0 ==> name[i] == '.'
  {
    if name == [] then -1
    else if name[|name| - 1] == '.' then |name| - 1
    else LastDot(name[..|name| - 1])
  }

  lemma {:induction false} LastDotIsLast(name: string, j: int)
    requires LastDot(name) < j < |name|
    ensures name[j] != '.'
  {
    if name != [] && name[|name| - 1] != '.' && j < |name| - 1 {
      LastDotIsLast(name[..|name| - 1], j);
    }
  }

  /** `Path(name).suffix`: from the last dot on, unless that dot starts or ends the name. */
  function Suffix(name: string): string
  {
    var i := LastDot(name);
    if 0 < i < |name| - 1 then name[i..] else ""
  }

  /** A suffix is empty or a dot, at least one more character and no further dot, ending the name. */
  lemma SuffixShape(name: string)
    ensures var s := Suffix(name);
      s == "" || (|s| >= 2 && s[0] == '.' && EndsWith(name, s) && forall j :: 1 <= j < |s| ==> s[j] != '.')
  {
    var i := LastDot(name);
    if 0 < i < |name| - 1 {
      forall j | 1 <= j < |name| - i
        ensures name[i..][j] != '.'
      {
        LastDotIsLast(name, i + j);
      }
    }
  }

  /** What `extract_archive` does with an archive. */
  datatype Extraction = SevenZipManual | ZipExtract | TarExtract | Unsupported

  /** The branch chain of `extract_archive`, on the archive's file name. */
  function ArchiveKind(name: string): Extraction
  {
    var suffix := Lower(Suffix(name));
    if suffix == ".zip" || EndsWith(name, ".7z") then
      if EndsWith(name, ".7z") then SevenZipManual else ZipExtract
    else if suffix in [".tar", ".gz", ".bz2", ".xz"] then TarExtract
    else Unsupported
  }

  /** The value `extract_archive` returns. */
  predicate ExtractArchive(name: string)
  {
    ArchiveKind(name) in {ZipExtract, TarExtract}
  }

  /**
   * The archive is extracted, and `True` returned, exactly when the name does not end with ".7z"
   * and its suffix is, ignoring case, one of .zip, .tar, .gz, .bz2 and .xz.
   */
  lemma ExtractArchiveAccepts(name: string)
    ensures ExtractArchive(name) <==>
      !EndsWith(name, ".7z") && Lower(Suffix(name)) in [".zip", ".tar", ".gz", ".bz2", ".xz"]
    ensures EndsWith(name, ".7z") ==> ArchiveKind(name) == SevenZipManual
  {
  }
}
