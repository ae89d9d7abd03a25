/** The scan pipeline of the command-line entry point (`pontos/cli.py`):
    the detector's records are handed to the GeoJSON exporter. These lemmas
    connect the two models. */
module Scan {
  import Geo
  import Detector

  /** A record the detector builds can always be exported to a Point: its
      centre has two coordinates, and its class is the model's name for the
      box, so the "vessel" default is never used. */
  lemma DetectedRecordExports(id: nat, b: Detector.RawBox, names: map<int, string>, bbox: Geo.BBox, size: Geo.ImageSize)
    requires Detector.ClassId(b) in names
    requires size.width != 0 && size.height != 0
    ensures Geo.Exportable(Detector.RecordOf(b, names), size)
    ensures Geo.FeatureOf(id, Detector.RecordOf(b, names), bbox, size).properties.className
            == names[Detector.ClassId(b)]
  {
  }

  /** A box whose corners lie inside the image is exported as a Point inside
      a well-ordered bbox: the midpoint of the box stays inside the image,
      and the pixel-to-geographic map keeps the image inside the bbox. */
  lemma DetectedVesselInsideBBox(id: nat, b: Detector.RawBox, names: map<int, string>, bbox: Geo.BBox, size: Geo.ImageSize)
    requires Detector.ClassId(b) in names
    requires size.width > 0 && size.height > 0
    requires 0.0 <= b.x1 <= size.width as real && 0.0 <= b.x2 <= size.width as real
    requires 0.0 <= b.y1 <= size.height as real && 0.0 <= b.y2 <= size.height as real
    requires bbox.minLon <= bbox.maxLon && bbox.minLat <= bbox.maxLat
    ensures Geo.Exportable(Detector.RecordOf(b, names), size)
    ensures var c := Geo.FeatureOf(id, Detector.RecordOf(b, names), bbox, size).geometry.coordinates;
            |c| == 2 && Geo.InBBox(Geo.Position(c[0], c[1]), bbox)
  {
    var d := Detector.RecordOf(b, names);
    Geo.FeatureOfInBBox(id, d, bbox, size);
  }
}
