/** The values the detector works with: limit pairs, the BEV geometry and the 8-field box. */
module Types {

  /** A configured limit pair `[min, max]`, in metres. */
  datatype Range = Range(lo: real, hi: real) {

    predicate Ordered() {
      lo <= hi
    }

    function Span(): real {
      hi - lo
    }

    /** The chained comparison `lo <= v <= hi`. */
    predicate Contains(v: real) {
      lo <= v && v <= hi
    }
  }

  /**
   * The part of the configuration the projection reads: the detection range in
   * vehicle metres and the BEV image resolution in pixels.
   */
  datatype Geometry = Geometry(limX: Range, limY: Range, limZ: Range, bevWidth: real, bevHeight: real) {

    /** Non-zero resolution (the source divides by both) and ordered limits. */
    predicate Valid() {
      bevWidth > 0.0 && bevHeight > 0.0 && limX.Ordered() && limY.Ordered() && limZ.Ordered()
    }
  }

  /**
   * One box as the detector's lists hold it: `[id, x, y, z, height, width, length, yaw]`,
   * in BEV pixels before projection and in vehicle metres after it.
   */
  datatype Box = Box(id: real, x: real, y: real, z: real, height: real, width: real, length: real, yaw: real)
}
