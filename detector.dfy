/** The vessel detector (`pontos/detector.py`): device selection with a CPU
    fallback, and the shaping of the model's raw boxes into detection records.
    The pretrained model and the CUDA runtime are external: CUDA availability
    is a boolean parameter and the model is a function parameter. */
module Detector {
  import opened Common
  import Config
  import Geo

  const Cpu := "cpu"
  const CpuName := "CPU"
  const DefaultConfidenceThreshold: real := 0.05
  const DefaultTileSize: int := 320
  const DefaultTileOverlap: real := 0.5
  const TiledMessage := "Tiled detection coming in v2.1"

  /** One box of the model's output: corners (x1, y1) and (x2, y2) in pixels,
      the confidence, and the class index as the float the model reports. */
  datatype RawBox = RawBox(x1: real, y1: real, x2: real, y2: real, conf: real, cls: real)

  /** The arguments the detector passes to the model for one image. */
  datatype InferenceArgs = InferenceArgs(
    imagePath: string, conf: real, device: string, save: bool, project: Option<string>)

  /** The device asked for: the explicit argument when it is truthy, the
      configured device otherwise (so an empty string also falls back). */
  function RequestedDevice(device: Option<string>, configured: string): (d: string)
    ensures Truthy(device) ==> d == device.value
    ensures !Truthy(device) ==> d == configured
  {
    if Truthy(device) then device.value else configured
  }

  /** The device actually used: the requested one, except that a GPU request
      without CUDA falls back to the CPU. */
  function ResolvedDevice(requested: string, cudaAvailable: bool): (d: string)
    ensures d == Cpu || d == requested
    ensures d != Cpu ==> cudaAvailable
    ensures cudaAvailable ==> d == requested
    ensures requested == Cpu ==> d == Cpu
  {
    if requested != Cpu && !cudaAvailable then Cpu else requested
  }

  /** Python's `int(x)` on a float: truncation toward zero. */
  function Truncate(x: real): (n: int)
    ensures 0.0 <= x ==> 0 <= n && n as real <= x < n as real + 1.0
    ensures x < 0.0 ==> n <= 0 && n as real - 1.0 < x <= n as real
  {
    if x >= 0.0 then x.Floor else -((-x).Floor)
  }

  /** The class index of a raw box. */
  function ClassId(b: RawBox): int {
    Truncate(b.cls)
  }

  /** The record built for one box: the four corners, the confidence, the
      class name, and the centre as the midpoint of the box. */
  function RecordOf(b: RawBox, names: map<int, string>): (d: Geo.Detection)
    requires ClassId(b) in names
    ensures |d.bbox| == 4 && |d.center| == 2
    ensures d.center[0] - b.x1 == b.x2 - d.center[0] && d.center[1] - b.y1 == b.y2 - d.center[1]
    ensures d.bbox == [b.x1, b.y1, b.x2, b.y2] && d.confidence == b.conf
    ensures d.className == Some(names[ClassId(b)])
  {
    Geo.Detection([b.x1, b.y1, b.x2, b.y2], b.conf, Some(names[ClassId(b)]),
                  [(b.x1 + b.x2) / 2.0, (b.y1 + b.y2) / 2.0])
  }

  /** `k` is the first box whose class index has no name. */
  predicate FirstUnnamed(boxes: seq<RawBox>, names: map<int, string>, k: int) {
    0 <= k < |boxes| && ClassId(boxes[k]) !in names
      && forall j :: 0 <= j < k ==> ClassId(boxes[j]) in names
  }

  class VesselDetector {
    var modelPath: string
    var confidenceThreshold: real
    var device: string

    /** Stores the model path (the configured one when none is given) and the
        threshold as passed, then resolves the device. Loading the model is
        not part of this model. */
    constructor (config: Config.PontosConfig, cudaAvailable: bool, modelPath: Option<string> := None,
                 device: Option<string> := None, confidenceThreshold: real := DefaultConfidenceThreshold)
      ensures this.modelPath == modelPath.GetOr(config.modelPath)
      ensures this.confidenceThreshold == confidenceThreshold
      ensures this.device == ResolvedDevice(RequestedDevice(device, config.device), cudaAvailable)
    {
      this.modelPath := modelPath.GetOr(config.modelPath);
      this.confidenceThreshold := confidenceThreshold;
      var requested := RequestedDevice(device, config.device);
      this.device := ResolvedDevice(requested, cudaAvailable);
    }

    /** A GPU is in use: CUDA is present and the device is not the CPU. */
    function IsGpuAvailable(cudaAvailable: bool): (inUse: bool)
      reads this
      ensures !cudaAvailable ==> !inUse
      ensures device == Cpu ==> !inUse
      ensures cudaAvailable && device != Cpu ==> inUse
    {
      cudaAvailable && device != Cpu
    }

    /** "CPU" when no GPU is in use, otherwise the GPU's name as the CUDA
        runtime reports it (`gpuName`). */
    function GetDeviceName(cudaAvailable: bool, gpuName: string): (name: string)
      reads this
      ensures !IsGpuAvailable(cudaAvailable) ==> name == CpuName
      ensures IsGpuAvailable(cudaAvailable) ==> name == gpuName
      ensures gpuName != CpuName ==> (name == CpuName <==> !IsGpuAvailable(cudaAvailable))
    {
      if IsGpuAvailable(cudaAvailable) then gpuName else CpuName
    }

    /** The arguments the model is called with: the stored threshold and the
        resolved device. */
    function InferenceArgsFor(imagePath: string, save: bool, outputDir: Option<string>): (a: InferenceArgs)
      reads this
      ensures a.conf == confidenceThreshold && a.device == device
      ensures a.imagePath == imagePath && a.save == save && a.project == outputDir
    {
      InferenceArgs(imagePath, confidenceThreshold, device, save, outputDir)
    }

    /** Runs the model once and turns each of its boxes, in order, into a
        record. An error raised by the model propagates; a class index the
        model's name table lacks raises KeyError. */
    method Detect(model: InferenceArgs -> Result<seq<RawBox>>, names: map<int, string>,
                  imagePath: string, save: bool := false, outputDir: Option<string> := None)
      returns (r: Result<seq<Geo.Detection>>)
      ensures model(InferenceArgsFor(imagePath, save, outputDir)).Err? ==>
                r == Err(model(InferenceArgsFor(imagePath, save, outputDir)).error)
      ensures model(InferenceArgsFor(imagePath, save, outputDir)).Ok? ==>
                var boxes := model(InferenceArgsFor(imagePath, save, outputDir)).value;
                && (r.Ok? <==> forall i :: 0 <= i < |boxes| ==> ClassId(boxes[i]) in names)
                && (r.Ok? ==> |r.value| == |boxes|
                              && forall i :: 0 <= i < |boxes| ==> r.value[i] == RecordOf(boxes[i], names))
                && (r.Err? ==> exists k :: FirstUnnamed(boxes, names, k) && r.error == KeyError(ClassId(boxes[k])))
    {
      var results := model(InferenceArgs(imagePath, confidenceThreshold, device, save, outputDir));
      if results.Err? {
        return Err(results.error);
      }
      var boxes := results.value;
      var detections: seq<Geo.Detection> := [];
      var i := 0;
      while i < |boxes|
        invariant 0 <= i <= |boxes|
        invariant |detections| == i
        invariant forall j :: 0 <= j < i ==> ClassId(boxes[j]) in names && detections[j] == RecordOf(boxes[j], names)
      {
        var box := boxes[i];
        var classId := Truncate(box.cls);
        if classId !in names {
          assert FirstUnnamed(boxes, names, i);
          return Err(KeyError(classId));
        }
        detections := detections + [Geo.Detection([box.x1, box.y1, box.x2, box.y2], box.conf, Some(names[classId]),
                                                  [(box.x1 + box.x2) / 2.0, (box.y1 + box.y2) / 2.0])];
        i := i + 1;
      }
      return Ok(detections);
    }

    /** Tiled detection is declared but not implemented: it raises for
        every input. */
    method DetectTiled(imagePath: string, tileSize: int := DefaultTileSize, overlap: real := DefaultTileOverlap) returns (r: Result<seq<Geo.Detection>>)
      ensures r == Err(NotImplementedError(TiledMessage))
    {
      return Err(NotImplementedError(TiledMessage));
    }
  }

  /** A detector resolved from `requested` uses a GPU exactly when CUDA is
      present and the request was not for the CPU. */
  lemma GpuInUseIffRequested(det: VesselDetector, requested: string, cudaAvailable: bool, gpuName: string)
    requires det.device == ResolvedDevice(requested, cudaAvailable)
    ensures det.IsGpuAvailable(cudaAvailable) <==> cudaAvailable && requested != Cpu
    ensures requested == Cpu || !cudaAvailable ==> det.GetDeviceName(cudaAvailable, gpuName) == CpuName
  {
  }
}
