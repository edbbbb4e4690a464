/**
 * The failure outcomes of the geometry library. Every `raise` of the
 * Python code becomes one `Error` variant, named after the condition that
 * triggers it, and every operation that can raise returns a `Result`.
 */
module Errors {

  datatype Error =
    | ZeroDivision          // ZeroDivisionError of a float division
    | ZeroMagnitude         // angle_between: one of the vectors has norm 0
    | NotNormalMultiple     // signed_angle_between: normal is not a multiple of the cross product
    | ZeroNormal            // signed_angle_between: normal of magnitude below EPS
    | DegeneratePlane       // Plane: the two basis vectors are multiples of each other
    | TooFewPoints          // Polygon: fewer than 3 input points
    | BadPointSize          // Polygon / is_inside: a point given as a list not of length 2
    | ZeroDegreeVertex      // Polygon: two consecutive sides with a vanishing cross product
    | ZeroTurning           // Polygon: net turning angle exactly 0
    | IndexOutOfRange       // split_between: an index at or past the vertex count
    | EqualIndices          // split_between: both indices equal
    | MissingKey            // convex_hull: removing an index no longer in the remaining set
    | RecursionLimit        // convex_hull: reversing a ccw polygon did not make it cw

  datatype Result<T> = Ok(value: T) | Err(error: Error)
}
