# Lidar object detection: from BEV network output to vehicle-frame boxes

This project models the post-inference geometry of `student/objdet_detect.py`
in Dafny and proves properties of that model. That file is the detection
stage of a lidar tracking pipeline. A network looks at a bird's-eye-view (BEV)
raster of the point cloud. Its post-processed output is turned into a list of
boxes `[id, x, y, z, height, width, length, yaw]` in vehicle-frame metres.

The model has three parts.

- **Configuration** (`configuration.dfy`). In the source, `load_configs_model`
  and `load_configs` fill in a dynamic attribute bag (an edict) and return
  it. Here the bag is the class `Configs`. It holds one `Settings` record in
  which every attribute is optional, since it stays unset until a loader writes
  it. The per-backend parameters form a closed sum type, `ModelParams`. The
  loader methods write the attributes one at a time. They are proved to leave
  the bag as the pure functions `WithBev`, `WithModel` and `WithVisual`
  describe. An unknown model name is the `ValueError`, modelled as an error
  value.
- **Darknet repackaging** (`darknet.dfy`, `sequences.dfy`). The darknet
  post-processing returns one entry per sample. A sample is None or a list of
  9-field rows. The nested append loop turns every row into the candidate
  `[1, x, y, 0.0, 1.50, w, l, atan2(im, re)]`. This is a flatten-and-map, and
  the loop method is proved equal to it.
- **Projection and range gating** (`projection.dfy`). Each candidate in BEV
  pixels is scaled into metres. The BEV vertical axis becomes vehicle x, and
  the horizontal axis becomes vehicle y, shifted by half the y span. The
  result is kept only if x, y and z lie within the configured limits. The loop
  method is proved equal to a filter over the projected list. Lemmas then show
  the range invariant, the order-preserving-subsequence characterisation and
  the inverse mapping.

`detection.dfy` puts these together as `detect_objects`. It also checks the
shipped configuration: 608 x 608 pixels over x in [0, 50], y in [-25, 25]
and z in [-1, 3].

All coordinates are Dafny `real`. `np.arctan2` is a function-valued parameter
(`atan2`), so nothing is assumed about its values.

## Model

| member | source | states |
|---|---|---|
| Configuration.WithModel | student/objdet_detect.py:58-113 | only "darknet" and "fpn_resnet" are accepted and any other name is the ValueError; an accepted name is stored as `arch`; min IoU and confidence threshold are both 0.5; darknet's NMS threshold is 0.4; fpn_resnet's k is 50 and its peak threshold 0.2; the bird's-eye-view attributes are left untouched |
| Configuration.Configs.constructor | student/objdet_detect.py:50-51 | a fresh edict has no attribute set |
| Configuration.WithBev | student/objdet_detect.py:139-145 | after the BEV attributes are written the typed geometry is the default one (608 x 608 over [0,50] x [-25,25] x [-1,3]) and lim_r is [0, 1.0]; the model, architecture and runtime attributes are left as they were |
| Configuration.WithVisual | student/objdet_detect.py:150-151 | output_width becomes 608; the BEV attributes (and so the geometry), the architecture and the model parameters are left as they were |
| Configuration.LoadConfigsModel | student/objdet_detect.py:36-120 | the model name defaults to "darknet"; with configs None a fresh edict is used, otherwise the passed one is mutated and returned; succeeds exactly for the two supported names, with the new attributes given by WithModel; on an unknown name it reports InvalidModelName and leaves the passed edict unchanged |
| Configuration.LoadConfigs | student/objdet_detect.py:123-154 | the model name defaults to "fpn_resnet"; writes the BEV limits and resolution, then delegates to LoadConfigsModel, then writes output_width; an unknown name propagates the error, and a passed edict then keeps the BEV attributes already written |
| Configuration.LoadedGeometry | student/objdet_detect.py:140-148 | whatever the edict held before, a successful load_configs gives the projection the default geometry (608 x 608 over [0,50] x [-25,25] x [-1,3]), which is valid, and records the requested architecture |
| Darknet.FromRow | student/objdet_detect.py:231-233 | the candidate of a row has class 1, z 0.0 and height 1.50, takes x, y, width and length from the row, and has yaw atan2(im, re) |
| Darknet.RepackageDarknet | student/objdet_detect.py:225-233 | the nested append loop produces exactly Repackaged(output): the candidates of the samples, joined in sample order |
| Darknet.RepackagedAppend | student/objdet_detect.py:226-233 | repackaging distributes over concatenation of the sample list, so samples are handled independently and in order |
| Darknet.NoneContributesNothing | student/objdet_detect.py:227-228 | inserting a None sample anywhere does not change the result |
| Darknet.RepackagedLength | student/objdet_detect.py:226-233 | the result has exactly as many candidates as there are rows in the non-None samples |
| Darknet.RepackagedAt | student/objdet_detect.py:229-233 | row j of sample i appears at position (rows of earlier samples) + j, as `[1, x, y, 0.0, 1.50, w, l, atan2(im, re)]` of that row (sample-then-row order) |
| Darknet.RepackagedShape | student/objdet_detect.py:231-233 | every candidate has class 1, z 0.0 and height 1.50, and is built from some row of some non-None sample |
| Projection.Project | student/objdet_detect.py:254-260 | the projected box has class id 1 whatever the input id, and z, box height and yaw pass through unchanged |
| Projection.ProjectRoundTrip | student/objdet_detect.py:256-260 | when both spans are non-zero, mapping a projected box back to BEV pixels recovers the candidate except for its class id, so the affine map of x, y, width and length is invertible |
| Projection.InLimits | student/objdet_detect.py:261-263 | the gate is the three chained comparisons lim[0] <= v <= lim[1] on x, y and z, bounds included; it can pass only when all three limit pairs are ordered |
| Projection.Objects | student/objdet_detect.py:247-267 | the object list is no longer than the detection list, and every object lies within lim_x, lim_y and lim_z and has class 1 |
| Projection.ObjectsAreKeptProjections | student/objdet_detect.py:250-265 | the objects are the projections of the detections at strictly increasing positions, and a position is among them if and only if its projection passes the gate, so failing inputs are dropped silently and order is preserved |
| Projection.ObjectsAppend | student/objdet_detect.py:252-265 | projecting and gating distributes over concatenation of detection lists |
| Projection.ExtractObjects | student/objdet_detect.py:247-267 | the projection loop (with its empty-list guard) produces exactly Objects(g, detections) |
| Projection.GateIsImageExtent | student/objdet_detect.py:256-263 | when lim_x starts at 0 and lim_y is symmetric, a candidate passes the gate if and only if its BEV position lies inside the image and its z inside lim_z |
| Detection.Occurs | student/objdet_detect.py:221 | Python's substring test `part in s`: it holds if and only if `part` stands at some position of `s` |
| Detection.Candidates | student/objdet_detect.py:221-244 | a name containing "darknet" takes the darknet branch first, otherwise one containing "fpn_resnet" the fpn_resnet branch; a name containing neither is UnknownArchitecture; the darknet branch yields one candidate per row and the fpn_resnet branch passes its detections through |
| Detection.DetectObjects | student/objdet_detect.py:221-267 | succeeds exactly when the architecture selects a branch whose output shape matches; the result is the gated projection of that branch's candidates; every object is in range and of class 1; the darknet branch yields at most one object per row |
| Detection.ArchitectureSelectsBranch | student/objdet_detect.py:221-235 | for the two names load_configs accepts, the substring tests `'darknet' in arch` and `'fpn_resnet' in arch` select exactly that name's branch |
| Detection.CentreOfImage | student/objdet_detect.py:256-263 | with the shipped configuration, BEV (304, 304) maps to (25, 0), a 608-pixel box is 50 m wide and long, and the gate then depends only on z in [-1, 3] |
| Detection.DarknetGateWithDefaults | student/objdet_detect.py:233-263 | with the shipped configuration the darknet z of 0.0 always passes lim_z, so a darknet row is kept if and only if 0 <= x <= 608 and 0 <= y <= 608 |
| Detection.AllNoneHasNoRows | student/objdet_detect.py:226-228 | a darknet output whose samples are all None has no rows |
| Detection.EmptyInEmptyOut | student/objdet_detect.py:247-250 | both an all-None darknet output and an empty fpn_resnet detection list give Ok([]) candidates and an empty gated projection, so DetectObjects returns Ok([]) for them and never an error |

## Left out

- Inference (`model(input_bev_maps)`, `torch.no_grad`) and `create_model` are left out: they load weight files, place tensors on a device and switch the model to eval mode, all of which is I/O or torch state.
- `decode`, `post_processing`, `post_processing_v2` and `_sigmoid` are imported from files that are not part of this model. Their results enter as arbitrary inputs. A darknet output is any list of optional row lists. An fpn_resnet output is any list of boxes, and stands for `detections[0][1]`.
- `np.arctan2` is a parameter. Its range (-pi, pi] and its value at (0, 0) are properties of the library function and are not modelled.
- Floating-point rounding and float32 casts are not modelled. Every coordinate is an exact real.
- Paths (`model_path`, `pretrained_filename`, `pretrained_path`, `cfgfile`) and `sys.path` changes are not modelled. The torch `device` object and `obj_colors` are not modelled either.
- Configuration.LoadConfigsModel: the source writes `model_path` before it checks the name, so even a rejected name leaves that path in the edict. The model omits paths, so it leaves a rejected edict unchanged.
- Configuration.Settings groups each backend's parameters into one `ModelParams` value. If one edict is loaded with both model names in turn, the source keeps the union of both attribute sets, while the model keeps only the last backend's parameters.
- Darknet.Row has exactly nine fields. A row of another length, which makes the source's tuple unpacking raise, cannot be represented.
- Detection.DetectObjects takes the architecture name and the geometry as typed values and requires a valid geometry. Reading them from the edict, and the errors for a missing attribute or a zero resolution, are not modelled. LoadedGeometry shows that a loaded edict always supplies both.
- Detection.DetectObjects reports a mismatch between the architecture and the output's shape as MalformedOutput. In the source, such a mismatch surfaces as whatever exception the post-processing raises. A name matching neither branch is UnknownArchitecture; in the source it is an unbound-variable error at the `len(detections)` test.
- The yaw-range, NMS and top-K properties of the wider pipeline are not modelled. They belong to the excluded post-processing and to `atan2`.
