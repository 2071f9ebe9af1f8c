/** The exceptions the boundary pipeline and the forcing files raise, one variant per cause. */
module Errors {
  import opened Series

  datatype Error =
    /** A station source lacks the time or site dimension. */
    | MissingDimension(coord: Name)
    /** x or y is a dimension: the source is gridded, not a set of stations. */
    | GriddedSource(coord: Name)
    /** x or y is not a data variable of the station source. */
    | MissingCoordinateVariable(coord: Name)
    /** The source reader does not list the time coordinate. */
    | MissingTimeCoordinate(coord: Name)
    /** The source time index is empty, so it has no first and last time. */
    | EmptyTimeIndex
    /** The requested interval leaves the source interval; both are reported. */
    | TimeOutOfRange(start: Instant, end: Instant, first: Instant, last: Instant)
    /** No time range was given, so there is no start time to emit at. */
    | NoTimeRange
    /** A parameter names a variable the dataset does not have. */
    | UnknownVariable(name: Name)
    /** A selection by time label on a time index in which some time occurs twice. */
    | NonUniqueIndex
    /** A boundary record is built from a dataset that does not hold exactly one time. */
    | NotSingleTime(size: nat)
    /** A boundary parameter is NaN at the record's time. */
    | ParameterIsNaN(param: Name, time: Instant)
    /** A boundary parameter holds `None`, which the NaN test cannot inspect. */
    | ParameterNotNumeric(param: Name)
    /** The parameter table has no time index, so it cannot be selected by time. */
    | NoTimeIndex
    /** A boundary parameter holds several values where the NaN test expects one. */
    | AmbiguousTruth(param: Name)
    /** Neither a boundary file nor a file list was given. */
    | NoBoundaryFile
    /** The internal boundary timestep is unset when the file list is written. */
    | TimestepUnset
    /** Configuration fields lie outside their declared bounds; all of them are reported, in declaration order. */
    | FieldsOutOfRange(fields: seq<Name>)
    /** The columns of a time-series file differ in length. */
    | UnequalSizes
}
