/**
 * Configuration selection: `load_configs_model` and `load_configs`.
 *
 * The source keeps its parameters in a dynamic attribute bag that both loaders
 * fill in and return. Here the bag is the class `Configs`, holding one
 * `Settings` record in which every attribute is optional (unset until a loader
 * writes it), and the per-backend parameters form a closed sum type. The
 * loaders are methods that write the attributes one by one and are proved to
 * leave the bag as the pure functions `WithBev`, `WithModel` and `WithVisual`
 * describe.
 */
module Configuration {
  import opened Wrappers
  import opened Types

  /** The parameters each backend branch sets (paths are not modelled). */
  datatype ModelParams =
    | DarknetParams(
        batchSize: int, confThresh: real, distributed: bool, imgSize: int, nmsThresh: real,
        numSamples: Option<int>, numWorkers: int, pinMemory: bool, useGiouLoss: bool)
    | FpnResnetParams(
        batchSize: int, confThresh: real, distributed: bool, numSamples: Option<int>,
        numWorkers: int, pinMemory: bool, numLayers: int, savedFn: string, k: int,
        peakThresh: real, saveTestOutput: bool, outputFormat: string, outputVideoFn: string,
        inputSize: (int, int), hmSize: (int, int), downRatio: int, maxObjects: int,
        imagenetPretrained: bool, headConv: int, numClasses: int, numCenterOffset: int,
        numZ: int, numDim: int, numDirection: int, heads: map<string, int>,
        numInputFeatures: int)

  /** The attributes of the bag; None where no loader has written the attribute yet. */
  datatype Settings = Settings(
    arch: Option<string>,
    model: Option<ModelParams>,
    minIou: Option<real>,
    noCuda: Option<bool>,
    gpuIdx: Option<int>,
    limX: Option<Range>,
    limY: Option<Range>,
    limZ: Option<Range>,
    limR: Option<Range>,
    bevWidth: Option<int>,
    bevHeight: Option<int>,
    outputWidth: Option<int>)

  /** The `ValueError` raised for a model name other than the two supported ones. */
  datatype ConfigError = InvalidModelName

  const EMPTY: Settings :=
    Settings(None, None, None, None, None, None, None, None, None, None, None, None)

  const DARKNET_PARAMS: ModelParams :=
    DarknetParams(4, 0.5, false, 608, 0.4, None, 4, true, false)

  const FPN_RESNET_HEADS: map<string, int> :=
    map["hm_cen" := 3, "cen_offset" := 2, "direction" := 2, "z_coor" := 1, "dim" := 3]

  const FPN_RESNET_PARAMS: ModelParams :=
    FpnResnetParams(4, 0.5, false, None, 1, true, 18, "fpn_resnet", 50, 0.2, false, "image",
                    "out_fpn_resnet", (608, 608), (152, 152), 4, 50, false, 64, 3, 2, 1, 3, 2,
                    FPN_RESNET_HEADS, 4)

  /** The edict the loaders mutate and return. */
  class Configs {
    var settings: Settings

    /** A fresh edict, with no attribute set. */
    constructor ()
      ensures settings == EMPTY
    {
      settings := EMPTY;
    }
  }

  predicate IsModelName(name: string) {
    name == "darknet" || name == "fpn_resnet"
  }

  /** The bird's-eye-view attributes of `s` and `t` agree. */
  predicate SameBev(s: Settings, t: Settings) {
    s.limX == t.limX && s.limY == t.limY && s.limZ == t.limZ && s.limR == t.limR
    && s.bevWidth == t.bevWidth && s.bevHeight == t.bevHeight
  }

  /** The attributes load_configs writes before delegating. */
  function WithBev(s: Settings): (r: Settings)
    ensures GeometryOf(r) == Some(DefaultGeometry()) && r.limR == Some(Range(0.0, 1.0))
    ensures r.arch == s.arch && r.model == s.model && r.minIou == s.minIou && r.noCuda == s.noCuda
    ensures r.gpuIdx == s.gpuIdx && r.outputWidth == s.outputWidth
  {
    s.(limX := Some(Range(0.0, 50.0)), limY := Some(Range(-25.0, 25.0)),
       limZ := Some(Range(-1.0, 3.0)), limR := Some(Range(0.0, 1.0)),
       bevWidth := Some(608), bevHeight := Some(608))
  }

  /**
   * What load_configs_model does to the bag: only the two supported names are
   * accepted; each records its own name as `arch` and the matching backend's
   * parameters, both use a minimum IoU and a confidence threshold of 0.5, and
   * neither touches the bird's-eye-view attributes.
   */
  function WithModel(s: Settings, name: string): (r: Result<Settings, ConfigError>)
    ensures r.Ok? <==> IsModelName(name)
    ensures r.Err? ==> r.error == InvalidModelName
    ensures r.Ok? ==> r.value.arch == Some(name) && r.value.minIou == Some(0.5)
    ensures r.Ok? ==> r.value.model.Some? && r.value.model.value.confThresh == 0.5
    ensures r.Ok? ==> (r.value.model.value.DarknetParams? <==> name == "darknet")
    ensures name == "darknet" ==> r.value.model.value.nmsThresh == 0.4
    ensures name == "fpn_resnet" ==> r.value.model.value.k == 50 && r.value.model.value.peakThresh == 0.2
    ensures r.Ok? ==> SameBev(r.value, s)
  {
    var runtime := (m: Settings) => m.(minIou := Some(0.5), noCuda := Some(true), gpuIdx := Some(0));
    if name == "darknet" then
      Ok(runtime(s.(arch := Some("darknet"), model := Some(DARKNET_PARAMS))))
    else if name == "fpn_resnet" then
      Ok(runtime(s.(arch := Some("fpn_resnet"), model := Some(FPN_RESNET_PARAMS), outputWidth := Some(608))))
    else
      Err(InvalidModelName)
  }

  /** The visualisation attribute load_configs writes after delegating. */
  function WithVisual(s: Settings): (r: Settings)
    ensures r.outputWidth == Some(608)
    ensures SameBev(r, s) && GeometryOf(r) == GeometryOf(s)
    ensures r.arch == s.arch && r.model == s.model && r.minIou == s.minIou && r.noCuda == s.noCuda
    ensures r.gpuIdx == s.gpuIdx
  {
    s.(outputWidth := Some(608))
  }

  /**
   * load_configs_model: the model name defaults to "darknet", and a `configs`
   * of null stands for the default `None`, for
   * which a fresh edict is used. On a supported name the (same or fresh) edict
   * gains the model's attributes and is returned; on any other name the
   * `ValueError` is returned and a passed edict is left as it was.
   */
  method LoadConfigsModel(modelName: string := "darknet", configs: Configs? := null) returns (r: Result<Configs, ConfigError>)
    modifies configs
    ensures r.Ok? <==> IsModelName(modelName)
    ensures r.Err? ==> r.error == InvalidModelName
    ensures r.Ok? && configs != null ==> r.value == configs
    ensures r.Ok? && configs == null ==> fresh(r.value)
    ensures r.Ok? ==>
      r.value.settings == WithModel(if configs == null then EMPTY else old(configs.settings), modelName).value
    ensures r.Err? && configs != null ==> configs.settings == old(configs.settings)
  {
    var c := configs;
    if c == null {
      c := new Configs();
    }
    if modelName == "darknet" {
      c.settings := c.settings.(arch := Some("darknet"));
      c.settings := c.settings.(model := Some(DARKNET_PARAMS));
    } else if modelName == "fpn_resnet" {
      c.settings := c.settings.(arch := Some("fpn_resnet"));
      c.settings := c.settings.(model := Some(FPN_RESNET_PARAMS));
      c.settings := c.settings.(outputWidth := Some(608));
    } else {
      return Err(InvalidModelName);
    }
    c.settings := c.settings.(minIou := Some(0.5));
    c.settings := c.settings.(noCuda := Some(true));
    c.settings := c.settings.(gpuIdx := Some(0));
    r := Ok(c);
  }

  /**
   * load_configs: the model name defaults to "fpn_resnet". The bird's-eye-view
   * attributes are written first, then the
   * model's (through LoadConfigsModel), then the output width. When the model
   * name is rejected the error propagates, and a passed edict keeps the
   * bird's-eye-view attributes already written to it.
   */
  method LoadConfigs(modelName: string := "fpn_resnet", configs: Configs? := null) returns (r: Result<Configs, ConfigError>)
    modifies configs
    ensures r.Ok? <==> IsModelName(modelName)
    ensures r.Err? ==> r.error == InvalidModelName
    ensures r.Ok? && configs != null ==> r.value == configs
    ensures r.Ok? && configs == null ==> fresh(r.value)
    ensures r.Ok? ==>
      r.value.settings
      == WithVisual(WithModel(WithBev(if configs == null then EMPTY else old(configs.settings)), modelName).value)
    ensures r.Err? && configs != null ==> configs.settings == WithBev(old(configs.settings))
  {
    var c := configs;
    if c == null {
      c := new Configs();
    }
    c.settings := c.settings.(limX := Some(Range(0.0, 50.0)));
    c.settings := c.settings.(limY := Some(Range(-25.0, 25.0)));
    c.settings := c.settings.(limZ := Some(Range(-1.0, 3.0)));
    c.settings := c.settings.(limR := Some(Range(0.0, 1.0)));
    c.settings := c.settings.(bevWidth := Some(608));
    c.settings := c.settings.(bevHeight := Some(608));
    var loaded := LoadConfigsModel(modelName, c);
    if loaded.Err? {
      return Err(loaded.error);
    }
    c := loaded.value;
    c.settings := c.settings.(outputWidth := Some(608));
    r := Ok(c);
  }

  /**
   * The typed view of the attributes the projection reads (the pixel counts
   * become reals, as the source's true division does); None when one is unset.
   */
  function GeometryOf(s: Settings): Option<Geometry> {
    match (s.limX, s.limY, s.limZ, s.bevWidth, s.bevHeight)
    case (Some(x), Some(y), Some(z), Some(w), Some(h)) => Some(Geometry(x, y, z, w as real, h as real))
    case _ => None
  }

  /** The geometry load_configs always installs: 608 x 608 pixels over [0, 50] x [-25, 25] x [-1, 3] metres. */
  function DefaultGeometry(): Geometry {
    Geometry(Range(0.0, 50.0), Range(-25.0, 25.0), Range(-1.0, 3.0), 608.0, 608.0)
  }

  /**
   * Whatever the edict held before, after a successful load_configs the
   * projection sees the default geometry, which is valid, and the detector
   * sees the requested architecture name.
   */
  lemma LoadedGeometry(s: Settings, name: string)
    requires IsModelName(name)
    ensures GeometryOf(WithVisual(WithModel(WithBev(s), name).value)) == Some(DefaultGeometry())
    ensures WithVisual(WithModel(WithBev(s), name).value).arch == Some(name)
    ensures DefaultGeometry().Valid()
  {
    var loaded := WithModel(WithBev(s), name).value;
    assert SameBev(loaded, WithBev(s));
  }
}
