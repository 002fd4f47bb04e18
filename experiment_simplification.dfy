/** `coastline_tools/experiment_simplification.py`: one simplification
    variant per (tolerance, minimum length) pair, all computed from the
    same clipped lines. File I/O and the statistics printouts are not part
    of this model; `parse_bbox` is the one of `BuildViewer`. */
module ExperimentSimplification {
  import opened Wrappers
  import opened Geometry
  import opened Text
  import opened CoastlinePipeline
  import opened BuildViewer

  // ---------------------------------------------------------- float lists

  /** Nothing but whitespace. */
  predicate IsBlank(s: string) {
    forall k :: 0 <= k < |s| ==> IsSpace(s[k])
  }

  /** `x.strip()` is empty, the test `parse_floats` filters by, exactly
      when `x` is blank. */
  lemma BlankStrip(s: string)
    ensures IsBlank(s) <==> Strip(s) == ""
  {
    var l := StripLeft(s);
    var r := StripRight(l);
    if l != [] {
      assert l[0] == s[|s| - |l|] && !IsSpace(s[|s| - |l|]);
      assert r != [];
    }
  }

  /** The items that are not blank, in order. */
  function NonBlank(parts: seq<string>): (r: seq<string>)
    ensures forall x :: x in r <==> x in parts && !IsBlank(x)
  {
    if parts == [] then []
    else
      assert forall x :: x in parts <==> x == parts[0] || x in parts[1..];
      (if !IsBlank(parts[0]) then [parts[0]] else []) + NonBlank(parts[1..])
  }

  /** Blank items are simply dropped; the others keep their order. */
  lemma {:induction false} NonBlankSubseq(parts: seq<string>)
    ensures IsSubseq(NonBlank(parts), parts)
  {
    if parts == [] {
      SubseqRefl(parts);
    } else {
      NonBlankSubseq(parts[1..]);
      assert parts == [parts[0]] + parts[1..];
      if !IsBlank(parts[0]) {
        SubseqCons(parts[0], NonBlank(parts[1..]), parts[1..]);
      } else {
        assert NonBlank(parts) == NonBlank(parts[1..]);
        SubseqSkip(NonBlank(parts[1..]), parts[0], parts[1..]);
      }
    }
  }

  lemma {:induction false} NonBlankAppend(a: seq<string>, b: seq<string>)
    ensures NonBlank(a + b) == NonBlank(a) + NonBlank(b)
  {
    if a == [] {
      assert a + b == b;
    } else {
      assert (a + b)[1..] == a[1..] + b;
      NonBlankAppend(a[1..], b);
    }
  }

  /** The items `parse_floats` converts. */
  function Items(text: string): seq<string> {
    NonBlank(Split(text, ','))
  }

  /** `parse_floats`: every non-blank comma-separated item as a float, in
      order; ValueError as soon as one of them does not parse. */
  function ParseFloats(text: string, pf: FloatParser): (r: Result<seq<real>>)
    ensures r.Ok? <==> forall k :: 0 <= k < |Items(text)| ==> pf(Items(text)[k]).Some?
    ensures r.Err? ==> r.error == "ValueError"
    ensures r.Ok? ==>
      |r.value| == |Items(text)| && forall k :: 0 <= k < |Items(text)| ==> pf(Items(text)[k]) == Some(r.value[k])
  {
    match ParseAll(Items(text), pf)
    case None => Err("ValueError")
    case Some(v) => Ok(v)
  }

  /** No item holds a comma. */
  predicate NoComma(parts: seq<string>) {
    forall k :: 0 <= k < |parts| ==> ',' !in parts[k]
  }

  lemma NoCommaAppend(x: seq<string>, y: seq<string>)
    requires NoComma(x) && NoComma(y)
    ensures NoComma(x + y)
  {
    forall k | 0 <= k < |x + y| ensures ',' !in (x + y)[k] {
      if k < |x| {
        assert (x + y)[k] == x[k];
      } else {
        assert (x + y)[k] == y[k - |x|];
      }
    }
  }

  /** Items separated by commas are read back without the blank ones. */
  lemma ItemsJoin(parts: seq<string>)
    requires parts != [] && NoComma(parts)
    ensures Items(Join(parts, ',')) == NonBlank(parts)
  {
    SplitJoin(parts, ',');
  }

  lemma NonBlankSkip(a: seq<string>, blank: string, b: seq<string>)
    requires IsBlank(blank)
    ensures NonBlank(a + [blank] + b) == NonBlank(a + b)
  {
    NonBlankAppend(a + [blank], b);
    NonBlankAppend(a, [blank]);
    NonBlankAppend(a, b);
    assert NonBlank([blank]) == [] by {
      assert [blank][1..] == [];
    }
    assert NonBlank(a) + [] == NonBlank(a);
  }

  /** A blank item anywhere in the list (`"10,,14"`, `"10, ,14"`) leaves
      the result unchanged. */
  lemma ParseFloatsIgnoresBlank(a: seq<string>, blank: string, b: seq<string>, pf: FloatParser)
    requires a != [] && NoComma(a) && NoComma(b)
    requires ',' !in blank && IsBlank(blank)
    ensures ParseFloats(Join(a + [blank] + b, ','), pf) == ParseFloats(Join(a + b, ','), pf)
  {
    assert NoComma([blank]);
    NoCommaAppend(a, [blank]);
    NoCommaAppend(a + [blank], b);
    NoCommaAppend(a, b);
    ItemsJoin(a + [blank] + b);
    ItemsJoin(a + b);
    NonBlankSkip(a, blank, b);
  }

  // -------------------------------------------------------------- variants

  /** `f"{x:.1f}"` and `f"{x}"`: float formatting, not modelled. */
  datatype Formats = Formats(fixed1: real -> string, repr: real -> string)

  /** One output file: its name and its collection. */
  datatype Variant = Variant(name: string, fc: FeatureCollection)

  /** The output file name. Every '.' becomes 'p', the one of the
      extension included. */
  function VariantName(fmt: Formats, tol: real, minLen: real): (name: string)
    ensures '.' !in name
    ensures |name| == |"shoreline_puget_tolm" + fmt.fixed1(tol) + "_minm" + fmt.fixed1(minLen) + ".geojson"|
  {
    ReplaceChar("shoreline_puget_tolm" + fmt.fixed1(tol) + "_minm" + fmt.fixed1(minLen) + ".geojson", '.', 'p')
  }

  lemma ReplaceCharConcat(a: string, b: string, x: char, y: char)
    ensures ReplaceChar(a + b, x, y) == ReplaceChar(a, x, y) + ReplaceChar(b, x, y)
  {
    assert forall k :: 0 <= k < |a + b| ==>
      ReplaceChar(a + b, x, y)[k] == (ReplaceChar(a, x, y) + ReplaceChar(b, x, y))[k];
  }

  /** The name is the two formatted numbers with their '.' turned into 'p',
      framed by fixed text, and ends in "pgeojson". */
  lemma VariantNameParts(fmt: Formats, tol: real, minLen: real)
    ensures VariantName(fmt, tol, minLen) ==
      "shoreline_puget_tolm" + ReplaceChar(fmt.fixed1(tol), '.', 'p') + "_minm"
        + ReplaceChar(fmt.fixed1(minLen), '.', 'p') + "pgeojson"
  {
    var t := fmt.fixed1(tol);
    var m := fmt.fixed1(minLen);
    ReplaceCharConcat("shoreline_puget_tolm" + t + "_minm" + m, ".geojson", '.', 'p');
    ReplaceCharConcat("shoreline_puget_tolm" + t + "_minm", m, '.', 'p');
    ReplaceCharConcat("shoreline_puget_tolm" + t, "_minm", '.', 'p');
    ReplaceCharConcat("shoreline_puget_tolm", t, '.', 'p');
    assert ReplaceChar("shoreline_puget_tolm", '.', 'p') == "shoreline_puget_tolm";
    assert ReplaceChar("_minm", '.', 'p') == "_minm";
    assert ReplaceChar(".geojson", '.', 'p') == "pgeojson";
  }

  /** Distinct formatted numbers give distinct names: two variants of one
      run overwrite each other only when both their numbers print alike.
      A fixed-point text never holds '_', which is what keeps the two
      numbers apart in the name. */
  lemma VariantNameInjective(fmt: Formats, t1: real, m1: real, t2: real, m2: real)
    requires '_' !in fmt.fixed1(t1) && '_' !in fmt.fixed1(t2)
    requires VariantName(fmt, t1, m1) == VariantName(fmt, t2, m2)
    ensures ReplaceChar(fmt.fixed1(t1), '.', 'p') == ReplaceChar(fmt.fixed1(t2), '.', 'p')
    ensures ReplaceChar(fmt.fixed1(m1), '.', 'p') == ReplaceChar(fmt.fixed1(m2), '.', 'p')
  {
    var pre := "shoreline_puget_tolm";
    var a := ReplaceChar(fmt.fixed1(t1), '.', 'p');
    var b := ReplaceChar(fmt.fixed1(t2), '.', 'p');
    var c := ReplaceChar(fmt.fixed1(m1), '.', 'p');
    var d := ReplaceChar(fmt.fixed1(m2), '.', 'p');
    VariantNameParts(fmt, t1, m1);
    VariantNameParts(fmt, t2, m2);
    var name := VariantName(fmt, t1, m1);
    Regroup(pre + a, "_minm", c, "pgeojson");
    Regroup(pre + b, "_minm", d, "pgeojson");
    assert name == (pre + a) + ("_minm" + c + "pgeojson");
    assert name == (pre + b) + ("_minm" + d + "pgeojson");
    FirstGap(pre, a, b, "_minm" + c + "pgeojson", "_minm" + d + "pgeojson");
    FirstGap(pre, b, a, "_minm" + d + "pgeojson", "_minm" + c + "pgeojson");
    assert '_' !in a && '_' !in b;
    assert |a| == |b|;
    PrefixOf(pre + a, "_minm" + c + "pgeojson");
    PrefixOf(pre + b, "_minm" + d + "pgeojson");
    assert pre + a == pre + b;
    assert (pre + a)[|pre|..] == a;
    assert (pre + b)[|pre|..] == b;
    var u := pre + a + "_minm";
    assert name == u + c + "pgeojson" && name == u + d + "pgeojson";
    assert c == name[|u|..|u| + |c|];
    assert d == name[|u|..|u| + |d|];
  }

  /** Where two texts that share `pre` differ in where their `_` follows,
      the longer middle part holds a `_`. */
  lemma FirstGap(pre: string, a: string, b: string, x: string, y: string)
    requires pre + a + x == pre + b + y && x != [] && x[0] == '_'
    ensures |a| < |b| ==> '_' in b
  {
    if |a| < |b| {
      assert (pre + a + x)[|pre| + |a|] == x[0];
      assert (pre + b + y)[|pre| + |a|] == b[|a|];
    }
  }

  lemma Regroup(u: string, x: string, y: string, z: string)
    ensures u + x + y + z == u + (x + y + z)
  {
  }

  lemma PrefixOf(u: string, v: string)
    ensures |u| <= |u + v| && (u + v)[..|u|] == u
  {
  }

  /** The `source` property of a variant's collection. */
  function VariantSource(fmt: Formats, tol: real, minLen: real): string {
    "WA_Ecology_experiment_tolm=" + fmt.repr(tol) + "_minm=" + fmt.repr(minLen)
  }

  /** What the inner loop body produces for one pair. */
  function MakeVariant(clipped: seq<Line>, fmt: Formats, proj: Projection, hypot: Hypot, tol: real, minLen: real)
    : Variant
  {
    Variant(VariantName(fmt, tol, minLen),
            LinesToFeatureCollection(SimplifiedLines(proj, hypot, tol, minLen, clipped), VariantSource(fmt, tol, minLen)))
  }

  /** The variants of all pairs, as one function of the pair. */
  function Variants(clipped: seq<Line>, fmt: Formats, proj: Projection, hypot: Hypot): (real, real) -> Variant {
    (tol, minLen) => MakeVariant(clipped, fmt, proj, hypot, tol, minLen)
  }

  /** What the inner loop produces for one tolerance: one entry per
      minimum length, in order. */
  function Row<T>(mk: (real, real) -> T, tol: real, mins: seq<real>): seq<T> {
    if mins == [] then []
    else Row(mk, tol, mins[..|mins| - 1]) + [mk(tol, mins[|mins| - 1])]
  }

  /** What the nested loops produce: the rows, tolerance outermost. */
  function Grid<T>(mk: (real, real) -> T, tols: seq<real>, mins: seq<real>): seq<T> {
    if tols == [] then []
    else Grid(mk, tols[..|tols| - 1], mins) + Row(mk, tols[|tols| - 1], mins)
  }

  lemma {:induction false} RowIndex<T>(mk: (real, real) -> T, tol: real, mins: seq<real>)
    ensures |Row(mk, tol, mins)| == |mins|
    ensures forall b :: 0 <= b < |mins| ==> Row(mk, tol, mins)[b] == mk(tol, mins[b])
  {
    if mins != [] {
      var n := |mins|;
      RowIndex(mk, tol, mins[..n - 1]);
      assert forall b :: 0 <= b < n - 1 ==> mins[..n - 1][b] == mins[b];
    }
  }

  /** `a * m`, built by repeated addition so that the proofs about the
      grid stay linear. */
  function Offset(a: nat, m: nat): nat {
    if a == 0 then 0 else Offset(a - 1, m) + m
  }

  lemma {:induction false} OffsetMul(a: nat, m: nat)
    ensures Offset(a, m) == a * m
  {
    if a > 0 {
      OffsetMul(a - 1, m);
      assert (a - 1) * m + m == a * m;
    }
  }

  lemma {:induction false} OffsetMono(a: nat, n: nat, m: nat)
    requires a < n
    ensures Offset(a, m) + m <= Offset(n, m)
  {
    if a < n - 1 {
      OffsetMono(a, n - 1, m);
    }
  }

  lemma {:induction false} GridLength<T>(mk: (real, real) -> T, tols: seq<real>, mins: seq<real>)
    ensures |Grid(mk, tols, mins)| == Offset(|tols|, |mins|)
  {
    if tols != [] {
      GridLength(mk, tols[..|tols| - 1], mins);
      RowIndex(mk, tols[|tols| - 1], mins);
    }
  }

  /** The grid of all tolerances starts with the grid of all but the last. */
  lemma GridSnocLeft<T>(mk: (real, real) -> T, tols: seq<real>, init: seq<real>, mins: seq<real>, i: nat)
    requires tols != [] && init == tols[..|tols| - 1]
    requires i < |Grid(mk, init, mins)|
    ensures i < |Grid(mk, tols, mins)|
    ensures Grid(mk, tols, mins)[i] == Grid(mk, init, mins)[i]
  {
    AppendLeft(Grid(mk, init, mins), Row(mk, tols[|tols| - 1], mins), i);
  }

  /** ... and ends with the row of the last tolerance. */
  lemma GridSnocRight<T>(mk: (real, real) -> T, tols: seq<real>, mins: seq<real>, b: nat)
    requires tols != [] && b < |mins|
    ensures Offset(|tols| - 1, |mins|) + b < |Grid(mk, tols, mins)|
    ensures Grid(mk, tols, mins)[Offset(|tols| - 1, |mins|) + b] == mk(tols[|tols| - 1], mins[b])
  {
    var n := |tols|;
    var init, row := Grid(mk, tols[..n - 1], mins), Row(mk, tols[n - 1], mins);
    assert Grid(mk, tols, mins) == init + row;
    GridLength(mk, tols[..n - 1], mins);
    RowAt(mk, tols[n - 1], mins, b);
    AppendRight(init, row, Offset(n - 1, |mins|) + b);
  }

  lemma RowAt<T>(mk: (real, real) -> T, tol: real, mins: seq<real>, b: nat)
    requires b < |mins|
    ensures |Row(mk, tol, mins)| == |mins| && Row(mk, tol, mins)[b] == mk(tol, mins[b])
  {
    RowIndex(mk, tol, mins);
  }

  /** Row `a` of the grid occupies the `|mins|` places from
      `Offset(a, |mins|)`. */
  lemma {:induction false} GridAt<T>(mk: (real, real) -> T, tols: seq<real>, mins: seq<real>, a: nat, b: nat)
    requires a < |tols| && b < |mins|
    ensures Offset(a, |mins|) + b < |Grid(mk, tols, mins)|
    ensures Grid(mk, tols, mins)[Offset(a, |mins|) + b] == mk(tols[a], mins[b])
  {
    var n := |tols|;
    if a < n - 1 {
      var init := tols[..n - 1];
      GridAt(mk, init, mins, a, b);
      GridSnocLeft(mk, tols, init, mins, Offset(a, |mins|) + b);
      assert init[a] == tols[a];
    } else {
      GridSnocRight(mk, tols, mins, b);
    }
  }

  lemma AppendLeft<T>(x: seq<T>, y: seq<T>, i: nat)
    requires i < |x|
    ensures i < |x + y| && (x + y)[i] == x[i]
  {
  }

  lemma AppendRight<T>(x: seq<T>, y: seq<T>, i: nat)
    requires |x| <= i < |x| + |y|
    ensures i < |x + y| && (x + y)[i] == y[i - |x|]
  {
  }

  lemma GridIndexAt<T>(mk: (real, real) -> T, tols: seq<real>, mins: seq<real>, a: nat, b: nat)
    requires a < |tols| && b < |mins|
    ensures a * |mins| + b < |Grid(mk, tols, mins)|
    ensures Grid(mk, tols, mins)[a * |mins| + b] == mk(tols[a], mins[b])
  {
    OffsetMul(a, |mins|);
    GridAt(mk, tols, mins, a, b);
  }

  /** There are `|tols| * |mins|` variants. */
  lemma GridSize<T>(mk: (real, real) -> T, tols: seq<real>, mins: seq<real>)
    ensures |Grid(mk, tols, mins)| == |tols| * |mins|
  {
    GridLength(mk, tols, mins);
    OffsetMul(|tols|, |mins|);
  }

  /** There is exactly one variant per pair: `|tols| * |mins|` in all, and
      the one for `(tols[a], mins[b])` sits at index `a * |mins| + b`. */
  lemma GridIndex<T>(mk: (real, real) -> T, tols: seq<real>, mins: seq<real>)
    ensures |Grid(mk, tols, mins)| == |tols| * |mins|
    ensures forall a, b :: 0 <= a < |tols| && 0 <= b < |mins| ==>
      a * |mins| + b < |Grid(mk, tols, mins)| &&
      Grid(mk, tols, mins)[a * |mins| + b] == mk(tols[a], mins[b])
  {
    GridSize(mk, tols, mins);
    forall a, b | 0 <= a < |tols| && 0 <= b < |mins|
      ensures a * |mins| + b < |Grid(mk, tols, mins)|
      ensures Grid(mk, tols, mins)[a * |mins| + b] == mk(tols[a], mins[b])
    {
      GridIndexAt(mk, tols, mins, a, b);
    }
  }

  /** `main`: the box is parsed and the lines clipped once, then the two
      lists are parsed and every pair thinned from the same clipped lines.
      Errors come in the order the source meets them. */
  method ExperimentSimplification(input: FeatureCollection, bboxText: string, tolText: string, minText: string,
                                  pf: FloatParser, fmt: Formats, proj: Projection, hypot: Hypot)
    returns (r: Result<seq<Variant>>)
    ensures ParseBbox(bboxText, pf).Err? ==> r == Err("ValueError")
    ensures ParseFloats(tolText, pf).Err? ==> r == Err("ValueError")
    ensures ParseFloats(minText, pf).Err? ==> r == Err("ValueError")
    ensures ParseBbox(bboxText, pf).Ok? && ParseFloats(tolText, pf).Ok? && ParseFloats(minText, pf).Ok? ==>
      r == Ok(Grid(Variants(Clipped(IterLines(input.features), ParseBbox(bboxText, pf).value), fmt, proj, hypot),
                   ParseFloats(tolText, pf).value, ParseFloats(minText, pf).value))
  {
    var bb := ParseBbox(bboxText, pf);
    if bb.Err? {
      return Err("ValueError");
    }
    var lines := IterLines(input.features);
    lines := ClipLinesToBbox(lines, bb.value.lonMin, bb.value.latMin, bb.value.lonMax, bb.value.latMax);
    assert BBox(bb.value.lonMin, bb.value.latMin, bb.value.lonMax, bb.value.latMax) == bb.value;
    var tr := ParseFloats(tolText, pf);
    if tr.Err? {
      return Err("ValueError");
    }
    var mr := ParseFloats(minText, pf);
    if mr.Err? {
      return Err("ValueError");
    }
    var out := VariantGrid(lines, tr.value, mr.value, fmt, proj, hypot);
    r := Ok(out);
  }

  /** The loops of `main`: tolerance outermost, one variant per pair, each
      thinned from the same clipped `lines`. */
  method VariantGrid(lines: seq<Line>, tols: seq<real>, mins: seq<real>, fmt: Formats, proj: Projection, hypot: Hypot)
    returns (out: seq<Variant>)
    ensures out == Grid(Variants(lines, fmt, proj, hypot), tols, mins)
  {
    ghost var mk := Variants(lines, fmt, proj, hypot);
    out := [];
    var i := 0;
    while i < |tols|
      invariant 0 <= i <= |tols|
      invariant out == Grid(mk, tols[..i], mins)
    {
      var row := VariantRow(lines, tols[i], mins, fmt, proj, hypot);
      assert tols[..i + 1][..i] == tols[..i];
      out := out + row;
      i := i + 1;
    }
    assert tols[..i] == tols;
  }

  /** The inner loop of `main` for one tolerance: one variant per minimum
      length, in order. */
  method VariantRow(lines: seq<Line>, tol: real, mins: seq<real>, fmt: Formats, proj: Projection, hypot: Hypot)
    returns (row: seq<Variant>)
    ensures row == Row(Variants(lines, fmt, proj, hypot), tol, mins)
  {
    ghost var mk := Variants(lines, fmt, proj, hypot);
    row := [];
    var j := 0;
    while j < |mins|
      invariant 0 <= j <= |mins|
      invariant row == Row(mk, tol, mins[..j])
    {
      var v := BuildVariant(lines, tol, mins[j], fmt, proj, hypot);
      assert mins[..j + 1][..j] == mins[..j];
      row := row + [v];
      j := j + 1;
    }
    assert mins[..j] == mins;
  }

  /** The body of the inner loop: simplify, name and label one variant. */
  method BuildVariant(lines: seq<Line>, tol: real, minLen: real, fmt: Formats, proj: Projection, hypot: Hypot)
    returns (v: Variant)
    ensures v == Variants(lines, fmt, proj, hypot)(tol, minLen)
  {
    var simplified := SimplifyLinesMeters(lines, tol, minLen, proj, hypot);
    var name := ReplaceChar("shoreline_puget_tolm" + fmt.fixed1(tol) + "_minm" + fmt.fixed1(minLen) + ".geojson",
                            '.', 'p');
    var fc := LinesToFeatureCollection(simplified, "WA_Ecology_experiment_tolm=" + fmt.repr(tol) + "_minm=" + fmt.repr(minLen));
    v := Variant(name, fc);
  }
}
