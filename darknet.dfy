/**
 * Repackaging of the darknet backend's post-processed output (the first branch
 * of `detect_objects`). The output holds one entry per sample; a sample with no
 * surviving detection is None, any other is a list of 9-field rows. Every row
 * becomes one BEV-pixel box of class 1 at the nominal z of 0.0 and nominal
 * height of 1.50, with its heading decoded by `atan2(im, re)`.
 *
 * `atan2` is a parameter: its values are not modelled, only where they go.
 */
module Darknet {
  import opened Wrappers
  import opened Types
  import opened Sequences

  /** One post-processed row: `x, y, w, l, im, re` followed by three fields the detector ignores. */
  datatype Row = Row(x: real, y: real, w: real, l: real, im: real, re: real, conf: real, clsConf: real, clsPred: real)

  type Sample = Option<seq<Row>>

  /** The candidate `[1, x, y, 0.0, 1.50, w, l, atan2(im, re)]` of one row. */
  function FromRow(row: Row, atan2: (real, real) -> real): (b: Box)
    ensures b.id == 1.0 && b.z == 0.0 && b.height == 1.5
    ensures b.x == row.x && b.y == row.y && b.width == row.w && b.length == row.l
    ensures b.yaw == atan2(row.im, row.re)
  {
    Box(1.0, row.x, row.y, 0.0, 1.5, row.w, row.l, atan2(row.im, row.re))
  }

  function RowBoxes(rows: seq<Row>, atan2: (real, real) -> real): seq<Box> {
    seq(|rows|, j requires 0 <= j < |rows| => FromRow(rows[j], atan2))
  }

  /** The boxes one sample contributes: none for a None sample. */
  function SampleBoxes(sample: Sample, atan2: (real, real) -> real): seq<Box> {
    match sample
    case None => []
    case Some(rows) => RowBoxes(rows, atan2)
  }

  /** Number of rows in one sample, zero for None. */
  function RowCount(sample: Sample): nat {
    match sample
    case None => 0
    case Some(rows) => |rows|
  }

  /** Number of rows over all samples. */
  function TotalRows(samples: seq<Sample>): nat {
    if samples == [] then 0 else TotalRows(samples[..|samples| - 1]) + RowCount(samples[|samples| - 1])
  }

  /** The candidates of each sample, sample by sample. */
  function Contributions(samples: seq<Sample>, atan2: (real, real) -> real): seq<seq<Box>> {
    seq(|samples|, i requires 0 <= i < |samples| => SampleBoxes(samples[i], atan2))
  }

  /** The candidate list the repackaging loop builds: the samples' candidates joined in order. */
  function Repackaged(samples: seq<Sample>, atan2: (real, real) -> real): seq<Box> {
    Concat(Contributions(samples, atan2))
  }

  /**
   * The repackaging loop: visits every sample, skips None, and appends one
   * candidate per row.
   */
  method RepackageDarknet(outputPost: seq<Sample>, atan2: (real, real) -> real) returns (detections: seq<Box>)
    ensures detections == Repackaged(outputPost, atan2)
  {
    detections := [];
    for sampleI := 0 to |outputPost|
      invariant detections == Repackaged(outputPost[..sampleI], atan2)
    {
      RepackagedPrefix(outputPost, sampleI, atan2);
      if outputPost[sampleI].None? {
        continue;
      }
      var detection := outputPost[sampleI].value;
      for j := 0 to |detection|
        invariant detections == Repackaged(outputPost[..sampleI], atan2) + RowBoxes(detection[..j], atan2)
      {
        var obj := detection[j];
        var yaw := atan2(obj.im, obj.re);
        RowBoxesPrefix(detection, j, atan2);
        detections := detections + [Box(1.0, obj.x, obj.y, 0.0, 1.5, obj.w, obj.l, yaw)];
      }
      assert detection[..|detection|] == detection;
    }
    assert outputPost[..|outputPost|] == outputPost;
  }

  lemma RowBoxesPrefix(rows: seq<Row>, j: nat, atan2: (real, real) -> real)
    requires j < |rows|
    ensures RowBoxes(rows[..j + 1], atan2) == RowBoxes(rows[..j], atan2) + [FromRow(rows[j], atan2)]
  {
  }

  lemma ContributionsAppend(s: seq<Sample>, t: seq<Sample>, atan2: (real, real) -> real)
    ensures Contributions(s + t, atan2) == Contributions(s, atan2) + Contributions(t, atan2)
  {
  }

  /** Repackaging distributes over concatenation: samples are processed independently and in order. */
  lemma RepackagedAppend(s: seq<Sample>, t: seq<Sample>, atan2: (real, real) -> real)
    ensures Repackaged(s + t, atan2) == Repackaged(s, atan2) + Repackaged(t, atan2)
  {
    ContributionsAppend(s, t, atan2);
    ConcatAppend(Contributions(s, atan2), Contributions(t, atan2));
  }

  /** One sample's candidates. */
  lemma RepackagedSingle(sample: Sample, atan2: (real, real) -> real)
    ensures Repackaged([sample], atan2) == SampleBoxes(sample, atan2)
  {
    assert Contributions([sample], atan2) == [SampleBoxes(sample, atan2)];
    ConcatSingleton(SampleBoxes(sample, atan2));
  }

  lemma RepackagedPrefix(samples: seq<Sample>, i: nat, atan2: (real, real) -> real)
    requires i < |samples|
    ensures Repackaged(samples[..i + 1], atan2) == Repackaged(samples[..i], atan2) + SampleBoxes(samples[i], atan2)
  {
    assert samples[..i + 1] == samples[..i] + [samples[i]];
    RepackagedAppend(samples[..i], [samples[i]], atan2);
    RepackagedSingle(samples[i], atan2);
  }

  /** A None sample contributes nothing, wherever it stands. */
  lemma NoneContributesNothing(s: seq<Sample>, t: seq<Sample>, atan2: (real, real) -> real)
    ensures Repackaged(s + [None] + t, atan2) == Repackaged(s + t, atan2)
  {
    RepackagedAppend(s + [None], t, atan2);
    RepackagedAppend(s, [None], atan2);
    RepackagedSingle(None, atan2);
    RepackagedAppend(s, t, atan2);
  }

  /** The result has exactly one candidate per row of the non-None samples. */
  lemma {:induction false} RepackagedLength(samples: seq<Sample>, atan2: (real, real) -> real)
    ensures |Repackaged(samples, atan2)| == TotalRows(samples)
  {
    if samples != [] {
      var n := |samples| - 1;
      RepackagedLength(samples[..n], atan2);
      assert samples[..n + 1] == samples;
      RepackagedPrefix(samples, n, atan2);
    }
  }

  /**
   * Sample-then-row order: row `j` of sample `i` lands at position
   * "rows of the samples before i" plus `j`, as the candidate of that row.
   */
  lemma RepackagedAt(samples: seq<Sample>, i: nat, j: nat, atan2: (real, real) -> real)
    requires i < |samples| && samples[i].Some? && j < |samples[i].value|
    ensures TotalRows(samples[..i]) + j < |Repackaged(samples, atan2)|
    ensures Repackaged(samples, atan2)[TotalRows(samples[..i]) + j] == FromRow(samples[i].value[j], atan2)
  {
    var before, after := samples[..i + 1], samples[i + 1..];
    assert samples == before + after;
    RepackagedAppend(before, after, atan2);
    RepackagedPrefix(samples, i, atan2);
    RepackagedLength(samples[..i], atan2);
  }

  /**
   * Shape of every candidate: class 1, z 0.0, height 1.50, and position, size
   * and heading taken from some row of some non-None sample.
   */
  lemma {:induction false} RepackagedShape(samples: seq<Sample>, atan2: (real, real) -> real, k: nat)
    requires k < |Repackaged(samples, atan2)|
    ensures Repackaged(samples, atan2)[k].id == 1.0
    ensures Repackaged(samples, atan2)[k].z == 0.0 && Repackaged(samples, atan2)[k].height == 1.5
    ensures exists i, j :: 0 <= i < |samples| && samples[i].Some? && 0 <= j < |samples[i].value|
                           && Repackaged(samples, atan2)[k] == FromRow(samples[i].value[j], atan2)
  {
    var last := |samples| - 1;
    if samples == [] {
      assert false;
    }
    var init := samples[..last];
    RepackagedPrefix(samples, last, atan2);
    assert samples[..last + 1] == samples;
    if k < |Repackaged(init, atan2)| {
      RepackagedShape(init, atan2, k);
      var i, j :| 0 <= i < |init| && init[i].Some? && 0 <= j < |init[i].value|
                  && Repackaged(init, atan2)[k] == FromRow(init[i].value[j], atan2);
      assert samples[i] == init[i];
    } else {
      var j := k - |Repackaged(init, atan2)|;
      assert Repackaged(samples, atan2)[k] == FromRow(samples[last].value[j], atan2);
    }
  }
}
