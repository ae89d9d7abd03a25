/** Pixel-to-geographic conversion and the GeoJSON export of detections
    (`pontos/geo.py`). Coordinates are exact reals: floating-point rounding is
    not modelled. The export follows RFC 7946: a FeatureCollection
    (section 3.3) of Features (section 3.2) whose geometries are Points
    (section 3.1.2) with positions ordered longitude, latitude (section 3.1.1). */
module Geo {
  import opened Common

  /** A geographic bounding box, in the order min_lon, min_lat, max_lon, max_lat. */
  datatype BBox = BBox(minLon: real, minLat: real, maxLon: real, maxLat: real)

  /** Image dimensions in pixels, in the order width, height. */
  datatype ImageSize = ImageSize(width: int, height: int)

  /** A longitude/latitude pair. */
  datatype Position = Position(lon: real, lat: real)

  /** A detection record as the exporter reads it. `className` is `None`
      when the record has no "class" key. */
  datatype Detection = Detection(bbox: seq<real>, confidence: real, className: Option<string>, center: seq<real>)

  /** The class written for a detection record without one. */
  const DefaultClass := "vessel"

  datatype Geometry = Point(coordinates: seq<real>) {
    const kind := "Point"
  }

  datatype Properties = Properties(id: nat, confidence: real, className: string)

  datatype Feature = Feature(geometry: Geometry, properties: Properties) {
    const kind := "Feature"
  }

  datatype FeatureCollection = FeatureCollection(features: seq<Feature>) {
    const kind := "FeatureCollection"
  }

  /** What the export produces: the document and the path it is written to. */
  datatype Export = Export(collection: FeatureCollection, path: string)

  predicate InBBox(p: Position, bbox: BBox) {
    bbox.minLon <= p.lon <= bbox.maxLon && bbox.minLat <= p.lat <= bbox.maxLat
  }

  /** The affine map from pixel (x, y) to (lon, lat). Row 0 is the northern
      edge, so the y axis is flipped. The ensures clauses characterise the
      result by proportion: the offset from the western edge is to the bbox
      width as x is to the image width, and the offset from the northern edge
      is to the bbox height as y is to the image height. */
  function PixelToGeo(x: real, y: real, bbox: BBox, size: ImageSize): (p: Position)
    requires size.width != 0 && size.height != 0
    ensures (p.lon - bbox.minLon) * size.width as real == x * (bbox.maxLon - bbox.minLon)
    ensures (bbox.maxLat - p.lat) * size.height as real == y * (bbox.maxLat - bbox.minLat)
  {
    var w, h := size.width as real, size.height as real;
    var lon := bbox.minLon + (x / w) * (bbox.maxLon - bbox.minLon);
    var lat := bbox.maxLat - (y / h) * (bbox.maxLat - bbox.minLat);
    assert (lon - bbox.minLon) * w == ((x / w) * w) * (bbox.maxLon - bbox.minLon);
    assert (bbox.maxLat - lat) * h == ((y / h) * h) * (bbox.maxLat - bbox.minLat);
    Position(lon, lat)
  }

  /** The reverse map, from a position to the pixel it comes from; defined
      only for a bbox with a non-zero extent on both axes. */
  ghost function GeoToPixel(p: Position, bbox: BBox, size: ImageSize): (real, real)
    requires bbox.minLon != bbox.maxLon && bbox.minLat != bbox.maxLat
  {
    ((p.lon - bbox.minLon) / (bbox.maxLon - bbox.minLon) * size.width as real,
     (bbox.maxLat - p.lat) / (bbox.maxLat - bbox.minLat) * size.height as real)
  }

  /** The top-left pixel maps to the north-west corner, the bottom-right
      pixel to the south-east corner, and likewise for the other two. */
  lemma PixelToGeoCorners(bbox: BBox, size: ImageSize)
    requires size.width != 0 && size.height != 0
    ensures PixelToGeo(0.0, 0.0, bbox, size) == Position(bbox.minLon, bbox.maxLat)
    ensures PixelToGeo(size.width as real, size.height as real, bbox, size) == Position(bbox.maxLon, bbox.minLat)
    ensures PixelToGeo(size.width as real, 0.0, bbox, size) == Position(bbox.maxLon, bbox.maxLat)
    ensures PixelToGeo(0.0, size.height as real, bbox, size) == Position(bbox.minLon, bbox.minLat)
  {
  }

  /** The centre pixel maps to the centre of the bbox. */
  lemma PixelToGeoCentre(bbox: BBox, size: ImageSize)
    requires size.width != 0 && size.height != 0
    ensures PixelToGeo(size.width as real / 2.0, size.height as real / 2.0, bbox, size)
            == Position((bbox.minLon + bbox.maxLon) / 2.0, (bbox.minLat + bbox.maxLat) / 2.0)
  {
  }

  /** A pixel inside the image maps into a well-ordered bbox. */
  lemma PixelToGeoInBBox(x: real, y: real, bbox: BBox, size: ImageSize)
    requires size.width > 0 && size.height > 0
    requires 0.0 <= x <= size.width as real && 0.0 <= y <= size.height as real
    requires bbox.minLon <= bbox.maxLon && bbox.minLat <= bbox.maxLat
    ensures InBBox(PixelToGeo(x, y, bbox, size), bbox)
  {
    var w, h := size.width as real, size.height as real;
    FractionBetween(x, w, bbox.maxLon - bbox.minLon);
    FractionBetween(y, h, bbox.maxLat - bbox.minLat);
  }

  /** 0 <= a <= b and d >= 0 give 0 <= (a / b) * d <= d. */
  lemma FractionBetween(a: real, b: real, d: real)
    requires 0.0 <= a <= b && b > 0.0 && d >= 0.0
    ensures 0.0 <= (a / b) * d <= d
  {
  }

  /** Mapping a pixel to a position and back gives the pixel again. */
  lemma GeoToPixelAfterPixelToGeo(x: real, y: real, bbox: BBox, size: ImageSize)
    requires size.width != 0 && size.height != 0
    requires bbox.minLon != bbox.maxLon && bbox.minLat != bbox.maxLat
    ensures GeoToPixel(PixelToGeo(x, y, bbox, size), bbox, size) == (x, y)
  {
    var p := PixelToGeo(x, y, bbox, size);
    var w, h := size.width as real, size.height as real;
    // The offsets are the pixel's fractions of the image, scaled to the bbox.
    assert (p.lon - bbox.minLon) / (bbox.maxLon - bbox.minLon) == x / w;
    assert (bbox.maxLat - p.lat) / (bbox.maxLat - bbox.minLat) == y / h;
    assert GeoToPixel(p, bbox, size).0 == x;
    assert GeoToPixel(p, bbox, size).1 == y;
  }

  /** Every position of a non-degenerate bbox is the image of the pixel the
      reverse map gives. */
  lemma PixelToGeoAfterGeoToPixel(p: Position, bbox: BBox, size: ImageSize)
    requires size.width != 0 && size.height != 0
    requires bbox.minLon != bbox.maxLon && bbox.minLat != bbox.maxLat
    ensures PixelToGeo(GeoToPixel(p, bbox, size).0, GeoToPixel(p, bbox, size).1, bbox, size) == p
  {
  }

  /** No other pixel maps to the same position: with the two round trips,
      the map is a bijection for a non-degenerate bbox. */
  lemma PixelToGeoInjective(x: real, y: real, p: Position, bbox: BBox, size: ImageSize)
    requires size.width != 0 && size.height != 0
    requires bbox.minLon != bbox.maxLon && bbox.minLat != bbox.maxLat
    requires PixelToGeo(x, y, bbox, size) == p
    ensures (x, y) == GeoToPixel(p, bbox, size)
  {
    GeoToPixelAfterPixelToGeo(x, y, bbox, size);
  }

  /** A detection the exporter can convert without raising: its centre
      unpacks into exactly two values and neither image dimension is zero. */
  predicate Exportable(d: Detection, size: ImageSize) {
    |d.center| == 2 && size.width != 0 && size.height != 0
  }

  /** The exception converting `d` raises when it is not exportable: the
      unpacking of the centre is reached before the division. */
  function ExportError(d: Detection, size: ImageSize): Error
    requires !Exportable(d, size)
  {
    if |d.center| != 2 then UnpackError(2, |d.center|) else ZeroDivisionError
  }

  /** The feature built for detection number `id`: a Point whose two
      coordinates are the longitude and then the latitude of the detection's
      centre, and whose properties are the index, the unchanged confidence and
      the class, "vessel" when the record has none. */
  function FeatureOf(id: nat, d: Detection, bbox: BBox, size: ImageSize): (f: Feature)
    requires Exportable(d, size)
    ensures f.kind == "Feature" && f.geometry.kind == "Point"
    ensures var p := PixelToGeo(d.center[0], d.center[1], bbox, size);
            |f.geometry.coordinates| == 2
            && f.geometry.coordinates[0] == p.lon && f.geometry.coordinates[1] == p.lat
    ensures f.properties.id == id && f.properties.confidence == d.confidence
    ensures d.className.Some? ==> f.properties.className == d.className.value
    ensures d.className.None? ==> f.properties.className == DefaultClass
  {
    var p := PixelToGeo(d.center[0], d.center[1], bbox, size);
    Feature(Point([p.lon, p.lat]), Properties(id, d.confidence, d.className.GetOr(DefaultClass)))
  }

  /** `k` is the first detection that cannot be exported. */
  predicate FirstFailure(ds: seq<Detection>, size: ImageSize, k: int) {
    0 <= k < |ds| && !Exportable(ds[k], size) && forall j :: 0 <= j < k ==> Exportable(ds[j], size)
  }

  /** A feature built from a centre inside the image lies inside a
      well-ordered bbox. */
  lemma FeatureOfInBBox(id: nat, d: Detection, bbox: BBox, size: ImageSize)
    requires Exportable(d, size) && size.width > 0 && size.height > 0
    requires 0.0 <= d.center[0] <= size.width as real && 0.0 <= d.center[1] <= size.height as real
    requires bbox.minLon <= bbox.maxLon && bbox.minLat <= bbox.maxLat
    ensures var c := FeatureOf(id, d, bbox, size).geometry.coordinates;
            InBBox(Position(c[0], c[1]), bbox)
  {
    PixelToGeoInBBox(d.center[0], d.center[1], bbox, size);
  }

  /** Builds one feature per detection, in order, numbered from 0, wraps them
      in a FeatureCollection and returns it with the given output path. The
      first detection that cannot be converted raises, and nothing is
      exported. */
  method DetectionsToGeoJson(detections: seq<Detection>, bbox: BBox, imageSize: ImageSize, outputPath: string)
    returns (r: Result<Export>)
    ensures r.Ok? <==> forall i :: 0 <= i < |detections| ==> Exportable(detections[i], imageSize)
    ensures r.Ok? ==> r.value.path == outputPath
    ensures r.Ok? ==> |r.value.collection.features| == |detections|
    ensures r.Ok? ==> forall i :: 0 <= i < |detections| ==>
              r.value.collection.features[i] == FeatureOf(i, detections[i], bbox, imageSize)
    ensures r.Err? ==> exists k :: FirstFailure(detections, imageSize, k) && r.error == ExportError(detections[k], imageSize)
  {
    var features: seq<Feature> := [];
    var idx := 0;
    while idx < |detections|
      invariant 0 <= idx <= |detections|
      invariant |features| == idx
      invariant forall i :: 0 <= i < idx ==>
                  Exportable(detections[i], imageSize) && features[i] == FeatureOf(i, detections[i], bbox, imageSize)
    {
      var detection := detections[idx];
      if |detection.center| != 2 {
        assert FirstFailure(detections, imageSize, idx);
        return Err(UnpackError(2, |detection.center|));
      }
      var cx, cy := detection.center[0], detection.center[1];
      if imageSize.width == 0 || imageSize.height == 0 {
        assert FirstFailure(detections, imageSize, idx);
        return Err(ZeroDivisionError);
      }
      var p := PixelToGeo(cx, cy, bbox, imageSize);
      var feature := Feature(Point([p.lon, p.lat]),
                             Properties(idx, detection.confidence, detection.className.GetOr(DefaultClass)));
      features := features + [feature];
      idx := idx + 1;
    }
    return Ok(Export(FeatureCollection(features), outputPath));
  }
}
