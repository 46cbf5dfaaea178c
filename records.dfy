/** The records the pages read from the data store, and the date functions they call. */
module Records {

  datatype Option<T> = None | Some(value: T)

  /**
   * The profile joined onto a reflection. A field that is null in the store
   * is the empty string here: every read of these fields is `field || default`,
   * which treats null and "" alike.
   */
  datatype Profile = Profile(firstName: string, lastName: string, team: string, email: string)

  /**
   * One self-assessment. Dates are the strings the store returns
   * (`bootcampDate` a calendar date, `createdAt` a timestamp); `profile` is
   * present only where the page joins `user_profiles`.
   */
  datatype Reflection = Reflection(
    id: string,
    bootcampDate: string,
    bootcampSession: string,
    keyLearnings: string,
    practicalApplications: string,
    confidenceLevel: int,
    successMoment: string,
    recommendationScore: int,
    createdAt: string,
    profile: Option<Profile>)

  /**
   * What the pages ask of the JavaScript `Date` object, supplied by the caller
   * so that every computation is a function of its inputs.
   */
  datatype Calendar = Calendar(
    /** `new Date(s).getTime()` */
    timeOf: string -> int,
    /** `new Date(s).toDateString()`, e.g. "Mon Jan 08 2024" */
    dateString: string -> string,
    /** the day, counted in whole days, on which `new Date(s)` falls */
    dayNumber: string -> int,
    /** `new Date(s).toLocaleString()` */
    localeString: string -> string,
    /** `new Date(s).toLocaleDateString('en-US', { month: 'short', day: 'numeric' })` */
    monthDay: string -> string,
    /** `new Date(s).toLocaleDateString('en-US', { weekday: 'short' })` */
    weekday: string -> string)

  function Confidences(rs: seq<Reflection>): (scores: seq<int>)
    ensures |scores| == |rs|
    ensures forall i :: 0 <= i < |rs| ==> scores[i] == rs[i].confidenceLevel
  {
    seq(|rs|, i requires 0 <= i < |rs| => rs[i].confidenceLevel)
  }

  function Recommendations(rs: seq<Reflection>): (scores: seq<int>)
    ensures |scores| == |rs|
    ensures forall i :: 0 <= i < |rs| ==> scores[i] == rs[i].recommendationScore
  {
    seq(|rs|, i requires 0 <= i < |rs| => rs[i].recommendationScore)
  }

  /** `toDateString()` of each reflection's bootcamp date. */
  function DateLabels(rs: seq<Reflection>, cal: Calendar): (labels: seq<string>)
    ensures |labels| == |rs|
    ensures forall i :: 0 <= i < |rs| ==> labels[i] == cal.dateString(rs[i].bootcampDate)
  {
    seq(|rs|, i requires 0 <= i < |rs| => cal.dateString(rs[i].bootcampDate))
  }
}
