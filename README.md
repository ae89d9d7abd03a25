# Pontos vessel-scan core, modelled in Dafny

Pontos scans a geographic area for ships. It downloads one Sentinel-2 L1C
scene, runs a pretrained YOLO detector on it, and exports the detections as
a GeoJSON FeatureCollection of Points. This project models the logic that
Pontos itself owns. The model, the imagery API, the clock and the file
system are external and appear as parameters.

- `common.dfy` (`Common`): optional values, the Python exceptions the code
  raises, and Python truthiness of an optional string.
- `config.dfy` (`Config`): the settings object `PontosConfig`. It has
  dataclass defaults, each environment-backed field is overwritten from the
  environment, and `Validate` checks the model file first and the
  credentials second.
- `geo.dfy` (`Geo`): the affine pixel-to-geographic map and the export of
  detection records to an RFC 7946 FeatureCollection. Feature is section
  3.2, FeatureCollection section 3.3, Point section 3.1.2, and positions are
  ordered longitude then latitude as in section 3.1.1.
- `detector.dfy` (`Detector`): the class `VesselDetector`. It resolves the
  device, falling back to the CPU when CUDA is absent. It shapes the model's
  boxes into records, reports the device name, and has a tiled detection
  that always raises.
- `sentinel.dfy` (`Sentinel`): the class `SentinelDataSource`. An explicit
  credential overrides the configured one unless it is `None`, and
  construction rejects missing or empty credentials. The scene request is
  always square, and a default output path is chosen when none is given.
- `scan.dfy` (`Scan`): lemmas joining the detector to the exporter, as the
  command-line scan composes them.

Coordinates are Dafny `real`s. Every coordinate property is therefore exact,
where the Python floats agree only up to rounding.

## Model

| member | source | states |
|---|---|---|
| `Config.ModelNotFoundMessage` | pontos/config.py:51-52 | the FileNotFoundError message is exactly `Model not found: ` followed by the model path |
| `Config.PontosConfig.constructor` | pontos/config.py:13-47 | every setting is its environment value when set, else its default: model `models/yolo11s_tci.pt`, confidence 0.05, device "0", patch 320, overlap 0.5, workers 4, batch 8; credentials stay `None` when unset; the data and output directories are the arguments, by default "data" and "runs" |
| `Config.PontosConfig.PostInit` | pontos/config.py:37-47 | each environment-backed field is overwritten by its variable or default; the directories are untouched |
| `Config.PontosConfig.Validate` | pontos/config.py:49-59 | a missing model raises FileNotFoundError whatever the credentials; otherwise a `None` or empty credential raises ValueError; it returns normally iff the model exists and both credentials are non-empty; it changes nothing |
| `Geo.PixelToGeo` | pontos/geo.py:56-81 | the longitude offset is to the bbox width as x is to the image width; the latitude offset from the northern edge is to the bbox height as y is to the image height (y axis flipped) |
| `Geo.PixelToGeoCorners` | pontos/geo.py:78-79 | pixel (0,0) maps to (min_lon, max_lat), pixel (width,height) to (max_lon, min_lat), and likewise for the other two corners |
| `Geo.PixelToGeoCentre` | pontos/geo.py:78-79 | pixel (width/2, height/2) maps to the bbox centre |
| `Geo.PixelToGeoInBBox` | pontos/geo.py:78-79 | a pixel inside the image maps inside a bbox whose min is at most its max on both axes |
| `Geo.GeoToPixelAfterPixelToGeo` | pontos/geo.py:78-79 | for a non-degenerate bbox, mapping a pixel to a position and back gives the pixel |
| `Geo.PixelToGeoAfterGeoToPixel` | pontos/geo.py:78-79 | for a non-degenerate bbox, every position is the image of the pixel the reverse map gives |
| `Geo.PixelToGeoInjective` | pontos/geo.py:78-79 | for a non-degenerate bbox, the only pixel mapping to a position is the one the reverse map gives, so the map is a bijection |
| `Geo.FeatureOf` | pontos/geo.py:34-45 | a feature is a Point with exactly two coordinates, `[lon, lat]` of the mapped centre; its id is the index, its confidence is copied unchanged, and its class is copied or "vessel" when absent |
| `Geo.FeatureOfInBBox` | pontos/geo.py:34-39 | a feature whose centre lies inside the image lies inside an ordered bbox |
| `Geo.DetectionsToGeoJson` | pontos/geo.py:12-54 | one feature per detection, in order, feature i built from detection i with id i, all in one FeatureCollection, and the given output path returned; it fails iff some detection cannot be converted, with the error of the first such detection (unpacking before division by zero) |
| `Detector.RequestedDevice` | pontos/detector.py:33 | a truthy device argument is used; `None` or "" falls back to the configured device |
| `Detector.ResolvedDevice` | pontos/detector.py:34-38 | the result is "cpu" or the request; it is not "cpu" only when CUDA is present; with CUDA it is the request unchanged; a "cpu" request stays "cpu" |
| `Detector.Truncate` | pontos/detector.py:73 | `int()` on the class float truncates toward zero |
| `Detector.RecordOf` | pontos/detector.py:71-81 | a record has a 4-entry bbox equal to the box corners, the confidence unchanged, the model's class name, and a 2-entry centre equidistant from both corners on each axis |
| `Detector.VesselDetector.constructor` | pontos/detector.py:15-38 | the model path is the argument or the configured one; the threshold is stored as passed; the device is the resolved device of the requested one |
| `Detector.VesselDetector.IsGpuAvailable` | pontos/detector.py:103-106 | no GPU is in use without CUDA or when the device is "cpu"; with CUDA and any other device a GPU is in use |
| `Detector.VesselDetector.GetDeviceName` | pontos/detector.py:108-112 | "CPU" when no GPU is in use, the CUDA device name otherwise; for a GPU name other than "CPU", "CPU" is returned exactly when no GPU is in use |
| `Detector.VesselDetector.InferenceArgsFor` | pontos/detector.py:60-67 | the model is called with the stored threshold, the resolved device, the save flag and the output directory |
| `Detector.VesselDetector.Detect` | pontos/detector.py:43-84 | a model error propagates; otherwise one record per box, in box order, record i built from box i; a class index with no name raises KeyError at the first such box |
| `Detector.VesselDetector.DetectTiled` | pontos/detector.py:86-101 | raises NotImplementedError for every input |
| `Detector.GpuInUseIffRequested` | pontos/detector.py:103-106 | a resolved detector uses a GPU iff CUDA is present and the request was not "cpu"; otherwise its device name is "CPU" |
| `Sentinel.ResolveCredential` | pontos/sentinel.py:37-46 | an explicit credential that is not `None` is used as given, even when empty; only `None` falls back to the configuration |
| `Sentinel.ExplicitEmptyCredentialRejected` | pontos/sentinel.py:38-50 | an explicit empty id or secret is rejected whatever the configuration holds |
| `Sentinel.FallbackAgreesWithValidation` | pontos/sentinel.py:40-50 | with no explicit credentials, construction succeeds iff both configured credentials are non-empty |
| `Sentinel.SceneFileName` | pontos/sentinel.py:103-104 | the default file name is `sentinel2_l1c_`, then the timestamp, then `.png` |
| `Sentinel.DefaultScenePath` | pontos/sentinel.py:104 | the default path is the data directory, a separator, then the default file name |
| `Sentinel.SentinelDataSource.constructor` | pontos/sentinel.py:25-46 | each stored credential is the resolved one |
| `Sentinel.SentinelDataSource.Create` | pontos/sentinel.py:25-50 | construction raises ValueError iff the resolved id or secret is `None` or empty; on success the client is fresh, its stored credentials are the resolved ones, and both are non-empty |
| `Sentinel.SentinelDataSource.GetScene` | pontos/sentinel.py:52-109 | the request asks for a square `[size, size]` image of the bbox and time range, at the given cloud cover, from the Sentinel-2 L1C collection with least-cloud-cover mosaicking, bands B04, B03, B02 as PNG, with the client's non-empty credentials; the path is the given output path, else the default path in the data directory |
| `Scan.DetectedRecordExports` | pontos/cli.py:34-43 | every record the detector builds can be exported, and its feature's class is the model's class name |
| `Scan.DetectedVesselInsideBBox` | pontos/cli.py:34-43 | a box whose corners lie inside the image is exported as a Point inside an ordered bbox |

## Left out

- Loading the YOLO model and running inference are foreign calls. The model
  is a function parameter returning boxes or an error. The failure on a
  missing model file at construction is therefore not modelled.
- The CUDA runtime queries are not modelled. CUDA availability and the GPU
  name are parameters.
- The imagery request is not executed: no HTTP call, response decoding,
  PNG writing or directory creation. `GetScene` returns the request it
  would send and the path it would write.
- The JSON text and the file write of the export are not modelled. The
  model returns the FeatureCollection value and the path.
- The clock is a parameter. `timestamp` is taken as already formatted.
- `.env` loading and the conversion of environment strings to numbers are
  not modelled. The environment is a record of already-typed optional
  values, and `Path.exists` is a function parameter.
- Path objects are plain strings. A path join is `dir + "/" + name`, with
  no normalisation.
- Floating-point rounding is not modelled. Coordinates, confidences and
  thresholds are exact reals.
- Detection records are typed values. A record always has a `confidence`
  and a `center`, so the KeyError a dict without them would raise is not
  modelled.
- Tiled detection with non-maximum suppression is not modelled. It exists
  only as a stub that always raises, and `DetectTiled` models that stub.
- The console messages are not modelled: the CPU-fallback `print` and the
  CLI's `click.echo`. The command-line parsing in `pontos/cli.py` is not
  modelled either. Only its composition of detector and exporter is stated,
  in `Scan`.
