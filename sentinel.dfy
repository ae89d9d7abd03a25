/** The satellite-imagery client (`pontos/sentinel.py`): resolution and
    validation of the API credentials, and the request parameters and output
    path of a scene download. The HTTP request, the decoding of the response
    and the writing of the PNG file are not modelled; the clock is a
    parameter (`timestamp`, already formatted as YYYYmmdd_HHMMSS). */
module Sentinel {
  import opened Common
  import Config
  import Geo

  const DefaultSceneSize: int := 1024
  const DefaultMaxCloudCoverage: real := 0.2
  const CredentialsMessage := "Sentinel Hub credentials not configured"
  const SceneFilePrefix := "sentinel2_l1c_"
  const SceneFileSuffix := ".png"

  /** The parameters of one imagery request: the Sentinel-2 L1C collection,
      least-cloudy-first mosaicking, the true-colour bands B04, B03, B02 and a
      PNG response, over `bbox` and `timeInterval`, at `size` pixels, with the
      client's credentials. */
  datatype SceneRequest = SceneRequest(
    bbox: Geo.BBox,
    timeInterval: (string, string),
    size: seq<int>,
    maxCloudCoverage: real,
    collection: string,
    mosaicking: string,
    bands: seq<string>,
    format: string,
    clientId: Option<string>,
    clientSecret: Option<string>)

  /** An explicit credential is used whenever it is not `None`, even when it
      is empty; only `None` falls back to the configured value. */
  function ResolveCredential(explicit: Option<string>, configured: Option<string>): (c: Option<string>)
    ensures explicit.Some? ==> c == explicit
    ensures explicit.None? ==> c == configured
  {
    if explicit.Some? then explicit else configured
  }

  /** Both credentials are present and non-empty. */
  predicate CredentialsConfigured(clientId: Option<string>, clientSecret: Option<string>) {
    Truthy(clientId) && Truthy(clientSecret)
  }

  /** An explicit empty credential does not fall back to the configuration,
      so it is rejected whatever the configuration holds. */
  lemma ExplicitEmptyCredentialRejected(
    clientId: Option<string>, clientSecret: Option<string>, configuredId: Option<string>, configuredSecret: Option<string>)
    requires clientId == Some("") || clientSecret == Some("")
    ensures !CredentialsConfigured(ResolveCredential(clientId, configuredId),
                                   ResolveCredential(clientSecret, configuredSecret))
  {
  }

  /** Without explicit credentials, construction accepts exactly the
      configurations whose credentials the settings' own validation accepts. */
  lemma FallbackAgreesWithValidation(config: Config.PontosConfig)
    ensures CredentialsConfigured(ResolveCredential(None, config.sentinelClientId),
                                  ResolveCredential(None, config.sentinelClientSecret))
            <==> Truthy(config.sentinelClientId) && Truthy(config.sentinelClientSecret)
  {
  }

  /** The default file name of a scene downloaded at `timestamp`. */
  function SceneFileName(timestamp: string): (name: string)
    ensures |name| == |SceneFilePrefix| + |timestamp| + |SceneFileSuffix|
    ensures name[..|SceneFilePrefix|] == SceneFilePrefix
    ensures name[|SceneFilePrefix|..|SceneFilePrefix| + |timestamp|] == timestamp
    ensures name[|name| - |SceneFileSuffix|..] == SceneFileSuffix
  {
    SceneFilePrefix + timestamp + SceneFileSuffix
  }

  /** The default path of a scene: the file name inside the data directory. */
  function DefaultScenePath(dataDir: string, timestamp: string): (path: string)
    ensures |path| > |dataDir| && path[..|dataDir| + 1] == dataDir + "/"
    ensures path[|dataDir| + 1..] == SceneFileName(timestamp)
  {
    dataDir + "/" + SceneFileName(timestamp)
  }

  class SentinelDataSource {
    // The two credential fields of the client configuration object.
    var shClientId: Option<string>
    var shClientSecret: Option<string>

    /** Sets each credential, one after the other, from the explicit argument
        or, when that is `None`, from the configuration. */
    constructor (config: Config.PontosConfig, clientId: Option<string> := None, clientSecret: Option<string> := None)
      ensures shClientId == ResolveCredential(clientId, config.sentinelClientId)
      ensures shClientSecret == ResolveCredential(clientSecret, config.sentinelClientSecret)
    {
      shClientId := ResolveCredential(clientId, config.sentinelClientId);
      shClientSecret := ResolveCredential(clientSecret, config.sentinelClientSecret);
    }

    /** Every client the caller can obtain holds a non-empty id and secret. */
    predicate Valid()
      reads this
    {
      CredentialsConfigured(shClientId, shClientSecret)
    }

    /** Construction as the caller sees it: the client is returned when both
        resolved credentials are non-empty; otherwise ValueError is raised. */
    static method Create(config: Config.PontosConfig, clientId: Option<string> := None, clientSecret: Option<string> := None)
      returns (r: Result<SentinelDataSource>)
      ensures r.Ok? <==> CredentialsConfigured(ResolveCredential(clientId, config.sentinelClientId),
                                               ResolveCredential(clientSecret, config.sentinelClientSecret))
      ensures r.Err? ==> r.error == ValueError(CredentialsMessage)
      ensures r.Ok? ==> fresh(r.value) && r.value.Valid()
      ensures r.Ok? ==> r.value.shClientId == ResolveCredential(clientId, config.sentinelClientId)
      ensures r.Ok? ==> r.value.shClientSecret == ResolveCredential(clientSecret, config.sentinelClientSecret)
    {
      var source := new SentinelDataSource(config, clientId, clientSecret);
      if !source.Valid() {
        return Err(ValueError(CredentialsMessage));
      }
      return Ok(source);
    }

    /** Builds the request for a square `size` x `size` image and chooses
        where the scene is saved: `outputPath` when given, otherwise a
        timestamped file in the configured data directory. */
    method GetScene(config: Config.PontosConfig, timestamp: string, bbox: Geo.BBox, timeRange: (string, string),
                    size: int := DefaultSceneSize, maxCloudCoverage: real := DefaultMaxCloudCoverage,
                    outputPath: Option<string> := None)
      returns (request: SceneRequest, path: string)
      requires Valid()
      ensures request.size == [size, size]
      ensures request.bbox == bbox && request.timeInterval == timeRange
      ensures request.maxCloudCoverage == maxCloudCoverage
      ensures request.clientId == shClientId && request.clientSecret == shClientSecret
      ensures Truthy(request.clientId) && Truthy(request.clientSecret)
      ensures request.collection == "SENTINEL2_L1C" && request.mosaicking == "leastCC"
      ensures request.bands == ["B04", "B03", "B02"] && request.format == "png"
      ensures outputPath.Some? ==> path == outputPath.value
      ensures outputPath.None? ==> path == DefaultScenePath(config.dataDir, timestamp)
    {
      request := SceneRequest(bbox, timeRange, [size, size], maxCloudCoverage,
                              "SENTINEL2_L1C", "leastCC", ["B04", "B03", "B02"], "png",
                              shClientId, shClientSecret);
      var output := outputPath;
      if output.None? {
        output := Some(DefaultScenePath(config.dataDir, timestamp));
      }
      path := output.value;
    }
  }
}
