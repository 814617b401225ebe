/** The record shapes the growth tracker passes between its parts. Dates are
    integer time values in milliseconds (what `new Date(date).getTime()`
    yields) rather than ISO strings. */
module GrowthTypes {

  datatype Option<+T> = None | Some(value: T)

  datatype Sex = Male | Female

  datatype MeasurementType = Weight | Height | Head

  /** One row of a WHO LMS reference series: at `ageInDays`, the Box-Cox power L,
      the median M and the coefficient of variation S. */
  datatype LmsPoint = LmsPoint(ageInDays: int, L: real, M: real, S: real)

  /** One measurement as the store keeps it. `date` is the measurement time
      in milliseconds, the key the store sorts by. */
  datatype GrowthMeasurement = GrowthMeasurement(
    id: string,
    date: int,
    ageInDays: int,
    weightKg: real,
    heightCm: real,
    headCm: real,
    weightPercentile: Option<real>,
    heightPercentile: Option<real>,
    headPercentile: Option<real>,
    notes: Option<string>)

  datatype BabyProfile = BabyProfile(
    id: string,
    name: string,
    birthDate: int,
    gender: Sex,
    birthWeight: Option<real>,
    birthHeight: Option<real>,
    birthHead: Option<real>)

  /** The value the store loads and saves (the time stamp is not modelled). */
  datatype StorageData = StorageData(
    version: string,
    babyProfile: Option<BabyProfile>,
    measurements: seq<GrowthMeasurement>)
}
