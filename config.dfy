/** The process-wide settings object (`pontos/config.py`): dataclass defaults,
    overwritten from the environment after construction, and an explicit
    validation step that raises in a fixed order. */
module Config {
  import opened Common

  /** The environment variables the settings read, already converted to the
      type each setting has (the string-to-number conversion is not modelled).
      `None` means the variable is not set. */
  datatype Environment = Environment(
    modelPath: Option<string>,            // MODEL_PATH
    shClientId: Option<string>,           // SH_CLIENT_ID
    shClientSecret: Option<string>,       // SH_CLIENT_SECRET
    confidenceThreshold: Option<real>,    // CONFIDENCE_THRESHOLD
    device: Option<string>,               // DEVICE
    patchSize: Option<int>,               // PATCH_SIZE
    patchOverlap: Option<real>,           // PATCH_OVERLAP
    maxWorkers: Option<int>,              // MAX_WORKERS
    batchSize: Option<int>)               // BATCH_SIZE

  /** An environment in which none of the variables is set. */
  const EmptyEnvironment := Environment(None, None, None, None, None, None, None, None, None)

  // Defaults used when a variable is not set.
  const DefaultModelPath := "models/yolo11s_tci.pt"
  const DefaultConfidenceThreshold: real := 0.05
  const DefaultDevice := "0"
  const DefaultPatchSize: int := 320
  const DefaultPatchOverlap: real := 0.5
  const DefaultMaxWorkers: int := 4
  const DefaultBatchSize: int := 8
  const DefaultDataDir := "data"
  const DefaultOutputDir := "runs"

  const CredentialsMessage :=
    "Sentinel Hub credentials not configured.\n"
    + "Please create a .env file with SH_CLIENT_ID and SH_CLIENT_SECRET.\n"
    + "Get credentials at: https://apps.sentinel-hub.com/dashboard/#/account/settings"

  const ModelNotFoundPrefix := "Model not found: "

  /** The message of the error `Validate` raises for a missing model file:
      the fixed prefix, then the model path. */
  function ModelNotFoundMessage(modelPath: string): (m: string)
    ensures |m| == |ModelNotFoundPrefix| + |modelPath|
    ensures m[..|ModelNotFoundPrefix|] == ModelNotFoundPrefix
    ensures m[|ModelNotFoundPrefix|..] == modelPath
  {
    ModelNotFoundPrefix + modelPath
  }

  class PontosConfig {
    var modelPath: string
    var dataDir: string
    var outputDir: string
    var sentinelClientId: Option<string>
    var sentinelClientSecret: Option<string>
    var confidenceThreshold: real
    var patchSize: int
    var patchOverlap: real
    var device: string
    var maxWorkers: int
    var batchSize: int

    /** The dataclass constructor: every field takes its argument or its
        declared default, then the post-initialisation step reads the
        environment. Only the two directories survive that step, so they are
        the only arguments modelled. */
    constructor (env: Environment, dataDir: string := DefaultDataDir, outputDir: string := DefaultOutputDir)
      ensures modelPath == env.modelPath.GetOr(DefaultModelPath)
      ensures sentinelClientId == env.shClientId
      ensures sentinelClientSecret == env.shClientSecret
      ensures confidenceThreshold == env.confidenceThreshold.GetOr(DefaultConfidenceThreshold)
      ensures device == env.device.GetOr(DefaultDevice)
      ensures patchSize == env.patchSize.GetOr(DefaultPatchSize)
      ensures patchOverlap == env.patchOverlap.GetOr(DefaultPatchOverlap)
      ensures maxWorkers == env.maxWorkers.GetOr(DefaultMaxWorkers)
      ensures batchSize == env.batchSize.GetOr(DefaultBatchSize)
      ensures this.dataDir == dataDir && this.outputDir == outputDir
    {
      // The declared model path default is None; it never survives PostInit.
      modelPath := "";
      this.dataDir := dataDir;
      this.outputDir := outputDir;
      sentinelClientId := None;
      sentinelClientSecret := None;
      confidenceThreshold := DefaultConfidenceThreshold;
      patchSize := DefaultPatchSize;
      patchOverlap := DefaultPatchOverlap;
      device := DefaultDevice;
      maxWorkers := DefaultMaxWorkers;
      batchSize := DefaultBatchSize;
      new;
      PostInit(env);
    }

    /** Overwrites each environment-backed setting, one after the other, with
        the variable's value, or with the default when it is not set. The two
        directories are not environment-backed and keep their values. */
    method PostInit(env: Environment)
      modifies this
      ensures modelPath == env.modelPath.GetOr(DefaultModelPath)
      ensures sentinelClientId == env.shClientId
      ensures sentinelClientSecret == env.shClientSecret
      ensures confidenceThreshold == env.confidenceThreshold.GetOr(DefaultConfidenceThreshold)
      ensures device == env.device.GetOr(DefaultDevice)
      ensures patchSize == env.patchSize.GetOr(DefaultPatchSize)
      ensures patchOverlap == env.patchOverlap.GetOr(DefaultPatchOverlap)
      ensures maxWorkers == env.maxWorkers.GetOr(DefaultMaxWorkers)
      ensures batchSize == env.batchSize.GetOr(DefaultBatchSize)
      ensures dataDir == old(dataDir) && outputDir == old(outputDir)
    {
      modelPath := env.modelPath.GetOr(DefaultModelPath);
      sentinelClientId := env.shClientId;
      sentinelClientSecret := env.shClientSecret;
      confidenceThreshold := env.confidenceThreshold.GetOr(DefaultConfidenceThreshold);
      device := env.device.GetOr(DefaultDevice);
      patchSize := env.patchSize.GetOr(DefaultPatchSize);
      patchOverlap := env.patchOverlap.GetOr(DefaultPatchOverlap);
      maxWorkers := env.maxWorkers.GetOr(DefaultMaxWorkers);
      batchSize := env.batchSize.GetOr(DefaultBatchSize);
    }

    /** Checks the model file first and the credentials second; returns
        normally exactly when both checks pass. `pathExists` stands for the
        file system. Nothing is changed. */
    method Validate(pathExists: string -> bool) returns (r: Outcome)
      ensures !pathExists(modelPath) ==> r == Fail(FileNotFoundError(ModelNotFoundMessage(modelPath)))
      ensures pathExists(modelPath) && !(Truthy(sentinelClientId) && Truthy(sentinelClientSecret)) ==>
                r == Fail(ValueError(CredentialsMessage))
      ensures r == Pass <==>
                pathExists(modelPath) && Truthy(sentinelClientId) && Truthy(sentinelClientSecret)
    {
      if !pathExists(modelPath) {
        return Fail(FileNotFoundError(ModelNotFoundMessage(modelPath)));
      }
      if !Truthy(sentinelClientId) || !Truthy(sentinelClientSecret) {
        return Fail(ValueError(CredentialsMessage));
      }
      return Pass;
    }
  }
}
