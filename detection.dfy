/**
 * `detect_objects` after inference: the architecture name selects how the
 * post-processed output becomes a BEV candidate list, and the candidates are
 * then projected and gated (module Projection).
 *
 * Inference and the fpn_resnet decoder/post-processing are outside the model:
 * their result enters as a `PostProcessed` value of either shape.
 */
module Detection {
  import opened Wrappers
  import opened Types
  import opened Configuration
  import opened Darknet
  import opened Projection

  /** What a backend's post-processing hands the detector. */
  datatype PostProcessed =
    | DarknetOutput(samples: seq<Sample>)
    | FpnResnetOutput(detections: seq<Box>)

  /**
   * UnknownArchitecture: `arch` names neither backend, so no candidate list is
   * ever bound (an unbound-variable error in the source). MalformedOutput: the
   * output does not have the shape of the architecture's backend.
   */
  datatype DetectError = UnknownArchitecture | MalformedOutput

  /** `part` stands at position `i` of `s`. */
  predicate MatchAt(part: string, s: string, i: int) {
    0 <= i && i + |part| <= |s| && s[i..i + |part|] == part
  }

  /** The substring test `part in s`, which the source applies to the architecture name. */
  predicate Occurs(part: string, s: string)
    ensures Occurs(part, s) <==> exists i :: MatchAt(part, s, i)
    decreases |s|
  {
    OccursStep(part, s);
    |part| <= |s| && (s[..|part|] == part || Occurs(part, s[1..]))
  }

  /** A match at the head of `s`, or one in its tail shifted by one position. */
  lemma OccursStep(part: string, s: string)
    ensures |part| <= |s| ==> (MatchAt(part, s, 0) <==> s[..|part|] == part)
    ensures |s| > 0 ==> ((exists i :: MatchAt(part, s[1..], i)) <==> (exists i :: 1 <= i && MatchAt(part, s, i)))
  {
    if |s| > 0 {
      forall i | MatchAt(part, s[1..], i) ensures MatchAt(part, s, i + 1) {
        assert s[1..][i..i + |part|] == s[i + 1..i + 1 + |part|];
      }
      forall i | 1 <= i && MatchAt(part, s, i) ensures MatchAt(part, s[1..], i - 1) {
        assert s[1..][i - 1..i - 1 + |part|] == s[i..i + |part|];
      }
    }
  }

  /** The candidate list in BEV pixels that the architecture's branch produces. */
  function Candidates(arch: string, output: PostProcessed, atan2: (real, real) -> real): (r: Result<seq<Box>, DetectError>)
    ensures r == Err(UnknownArchitecture) <==> !Occurs("darknet", arch) && !Occurs("fpn_resnet", arch)
    ensures r.Ok? <==> (Occurs("darknet", arch) && output.DarknetOutput?)
                       || (!Occurs("darknet", arch) && Occurs("fpn_resnet", arch) && output.FpnResnetOutput?)
    ensures r.Ok? && Occurs("darknet", arch) ==> |r.value| == TotalRows(output.samples)
    ensures r.Ok? && !Occurs("darknet", arch) ==> r.value == output.detections
  {
    RepackagedLengthAll(output, atan2);
    if Occurs("darknet", arch) then
      if output.DarknetOutput? then Ok(Repackaged(output.samples, atan2)) else Err(MalformedOutput)
    else if Occurs("fpn_resnet", arch) then
      if output.FpnResnetOutput? then Ok(output.detections) else Err(MalformedOutput)
    else
      Err(UnknownArchitecture)
  }

  lemma RepackagedLengthAll(output: PostProcessed, atan2: (real, real) -> real)
    ensures output.DarknetOutput? ==> |Repackaged(output.samples, atan2)| == TotalRows(output.samples)
  {
    if output.DarknetOutput? {
      RepackagedLength(output.samples, atan2);
    }
  }

  /**
   * The whole conversion: the architecture's candidates, projected and gated.
   * Every returned object is in range and of class 1, and the darknet branch
   * returns at most one object per post-processed row.
   */
  method DetectObjects(arch: string, g: Geometry, output: PostProcessed, atan2: (real, real) -> real)
    returns (r: Result<seq<Box>, DetectError>)
    requires g.Valid()
    ensures r.Ok? <==> Candidates(arch, output, atan2).Ok?
    ensures r.Err? ==> r.error == Candidates(arch, output, atan2).error
    ensures r.Ok? ==> r.value == Objects(g, Candidates(arch, output, atan2).value)
    ensures r.Ok? ==> forall k :: 0 <= k < |r.value| ==> InLimits(g, r.value[k]) && r.value[k].id == 1.0
    ensures r.Ok? && Occurs("darknet", arch) ==> |r.value| <= TotalRows(output.samples)
  {
    var detections: seq<Box>;
    if Occurs("darknet", arch) {
      if !output.DarknetOutput? {
        return Err(MalformedOutput);
      }
      detections := RepackageDarknet(output.samples, atan2);
      RepackagedLength(output.samples, atan2);
    } else if Occurs("fpn_resnet", arch) {
      if !output.FpnResnetOutput? {
        return Err(MalformedOutput);
      }
      detections := output.detections;
    } else {
      return Err(UnknownArchitecture);
    }
    var objects := ExtractObjects(g, detections);
    r := Ok(objects);
  }

  /** The names load_configs accepts each select their own branch. */
  lemma ArchitectureSelectsBranch(name: string)
    requires IsModelName(name)
    ensures Occurs("darknet", name) <==> name == "darknet"
    ensures Occurs("fpn_resnet", name) <==> name == "fpn_resnet"
  {
    if name == "fpn_resnet" {
      assert !Occurs("darknet", "_resnet");
      assert "n_resnet"[1..] == "_resnet" && "n_resnet"[0] != 'd';
      assert !Occurs("darknet", "n_resnet");
      assert "pn_resnet"[1..] == "n_resnet" && "pn_resnet"[0] != 'd';
      assert !Occurs("darknet", "pn_resnet");
      assert "fpn_resnet"[1..] == "pn_resnet" && "fpn_resnet"[0] != 'd';
    } else {
      assert "darknet"[..7] == "darknet";
      assert !Occurs("fpn_resnet", "darknet");
    }
  }

  /**
   * With the shipped configuration the image centre (304, 304) projects to the
   * centre of the detection range, 25 m ahead and 0 m to the side, and a
   * 608-pixel box spans the whole 50 m range.
   */
  lemma CentreOfImage(b: Box)
    requires b.x == 304.0 && b.y == 304.0 && b.width == 608.0 && b.length == 608.0
    ensures Project(DefaultGeometry(), b).x == 25.0
    ensures Project(DefaultGeometry(), b).y == 0.0
    ensures Project(DefaultGeometry(), b).width == 50.0 && Project(DefaultGeometry(), b).length == 50.0
    ensures InLimits(DefaultGeometry(), Project(DefaultGeometry(), b)) <==> -1.0 <= b.z <= 3.0
  {
  }

  /**
   * With the shipped configuration the nominal z of 0.0 always passes the z
   * limit [-1, 3], so a darknet candidate is kept exactly when its BEV
   * position lies inside the 608 x 608 image.
   */
  lemma DarknetGateWithDefaults(row: Row, atan2: (real, real) -> real)
    ensures InLimits(DefaultGeometry(), Project(DefaultGeometry(), FromRow(row, atan2)))
            <==> 0.0 <= row.x <= 608.0 && 0.0 <= row.y <= 608.0
  {
    GateIsImageExtent(DefaultGeometry(), FromRow(row, atan2));
  }

  /** A darknet output whose samples are all None has no rows. */
  lemma {:induction false} AllNoneHasNoRows(samples: seq<Sample>)
    requires forall i :: 0 <= i < |samples| ==> samples[i].None?
    ensures TotalRows(samples) == 0
  {
    if samples != [] {
      AllNoneHasNoRows(samples[..|samples| - 1]);
    }
  }

  /**
   * Empty input is not an error: an all-None darknet output and an empty
   * fpn_resnet detection list both give an empty candidate list, whose gated
   * projection is empty, so DetectObjects returns Ok([]) for both.
   */
  lemma EmptyInEmptyOut(g: Geometry, samples: seq<Sample>, atan2: (real, real) -> real)
    requires g.Valid()
    requires forall i :: 0 <= i < |samples| ==> samples[i].None?
    ensures Candidates("darknet", DarknetOutput(samples), atan2) == Ok([])
    ensures Candidates("fpn_resnet", FpnResnetOutput([]), atan2) == Ok([])
    ensures Objects(g, Candidates("darknet", DarknetOutput(samples), atan2).value) == []
    ensures Objects(g, Candidates("fpn_resnet", FpnResnetOutput([]), atan2).value) == []
  {
    AllNoneHasNoRows(samples);
    ArchitectureSelectsBranch("darknet");
    ArchitectureSelectsBranch("fpn_resnet");
  }
}
