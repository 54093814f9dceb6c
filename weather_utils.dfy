/**
 * The weather extension's error-message cleanup and UV-index colour bands.
 *
 * `Number(...)` on the UV reading and `getAvatarIcon` are not part of this
 * model: the parsed reading is a function parameter (`None` stands for NaN)
 * and the icon is represented by the text and background colour it is drawn with.
 */
module WeatherUtils {
  import opened Wrappers
  import opened Strings
  import Wttr

  const ErrorPrefix: string := "Error: "

  /** A thrown value: an `Error` with its message, or anything else. */
  datatype Thrown = ErrorValue(message: string) | OtherValue

  /**
   * `getErrorMessage`: the message of an `Error`; when it starts with "Error: ",
   * only the text from there up to the next "Error: " (the second piece of `split`).
   */
  function GetErrorMessage(error: Thrown): (r: string)
    ensures error.OtherValue? ==> r == "Unknown Error"
    ensures error.ErrorValue? && !StartsWith(error.message, ErrorPrefix) ==> r == error.message
    ensures error.ErrorValue? && StartsWith(error.message, ErrorPrefix) ==>
      var rest := error.message[|ErrorPrefix|..];
      StartsWith(rest, r) &&
      (|r| == |rest| || OccursAt(rest, ErrorPrefix, |r|)) &&
      forall i :: 0 <= i < |r| ==> !OccursAt(rest, ErrorPrefix, i)
  {
    match error
    case OtherValue => "Unknown Error"
    case ErrorValue(msg) =>
      if StartsWith(msg, ErrorPrefix) then
        var rest := msg[|ErrorPrefix|..];
        var next := IndexOf(rest, ErrorPrefix);
        if next == -1 then rest else rest[..next]
      else
        msg
  }

  /**
   * What `Wttr.fetch` adds, `getErrorMessage` removes: the "Error: " prefix put
   * in front of a message without a further "Error: " is stripped again.
   */
  lemma ErrorPrefixRoundTrip(m: string)
    requires !Includes(m, ErrorPrefix)
    ensures GetErrorMessage(ErrorValue(ErrorPrefix + m)) == m
  {
    assert (ErrorPrefix + m)[|ErrorPrefix|..] == m;
    assert StartsWith(ErrorPrefix + m, ErrorPrefix);
  }

  /** A failed wttr.in request with a non-empty message shows the classification message itself. */
  lemma FetchErrorShown(r: Wttr.Response)
    requires Wttr.Fetch(r).Thrown?
    requires Wttr.ToJsonOrError(r).message != ""
    requires !Includes(Wttr.ToJsonOrError(r).message, ErrorPrefix)
    ensures GetErrorMessage(ErrorValue(Wttr.Fetch(r).message)) == Wttr.ToJsonOrError(r).message
  {
    ErrorPrefixRoundTrip(Wttr.ToJsonOrError(r).message);
  }

  /**
   * A failure with an empty message, such as a 4xx body without `message`, is
   * shown as "Error": the re-throw's string form has no ": " to strip.
   */
  lemma FetchEmptyErrorShown(r: Wttr.Response)
    requires Wttr.Fetch(r).Thrown? && Wttr.ToJsonOrError(r).message == ""
    ensures GetErrorMessage(ErrorValue(Wttr.Fetch(r).message)) == "Error"
  {
    assert !StartsWith("Error", ErrorPrefix);
  }

  /** The 4xx body without a message, for example, ends up as "Error". */
  lemma MissingMessageShownAsError()
    ensures GetErrorMessage(ErrorValue(Wttr.Fetch(Wttr.Response(400, Some(Wttr.Json(None, None)))).message)) == "Error"
  {
    FetchEmptyErrorShown(Wttr.Response(400, Some(Wttr.Json(None, None))));
  }

  /** The five UV bands, from low to extreme. */
  datatype UVBand = Low | Middle | High | VeryHigh | Extreme

  function Severity(b: UVBand): nat
  {
    match b
    case Low => 0
    case Middle => 1
    case High => 2
    case VeryHigh => 3
    case Extreme => 4
  }

  function BandColor(b: UVBand): string
  {
    match b
    case Low => "#4EA12D"
    case Middle => "#F5BE41"
    case High => "#EE7F31"
    case VeryHigh => "#E93323"
    case Extreme => "#C12BF6"
  }

  /** The band of `uvIndexColor`'s threshold chain; a reading that is not a number is low. */
  function Band(index: Option<int>): (b: UVBand)
    ensures index.None? ==> b == Low
    ensures index.Some? ==>
      (b == Extreme <==> index.value >= 11) &&
      (b == VeryHigh <==> 8 <= index.value < 11) &&
      (b == High <==> 6 <= index.value < 8) &&
      (b == Middle <==> 3 <= index.value < 6) &&
      (b == Low <==> index.value < 3)
  {
    if index.None? then Low
    else if index.value >= 11 then Extreme
    else if index.value >= 8 then VeryHigh
    else if index.value >= 6 then High
    else if index.value >= 3 then Middle
    else Low
  }

  /** `uvIndexColor` */
  function UVIndexColor(index: Option<int>): string
  {
    BandColor(Band(index))
  }

  /** A higher UV index never falls into a lower band. */
  lemma BandMonotone(a: int, b: int)
    requires a <= b
    ensures Severity(Band(Some(a))) <= Severity(Band(Some(b)))
  {
  }

  /** Different bands are drawn in different colours. */
  lemma BandColorsDistinct(b1: UVBand, b2: UVBand)
    requires b1 != b2
    ensures BandColor(b1) != BandColor(b2)
  {
  }

  /**
   * `getUVIndexIcon`: nothing for a missing or whitespace-only reading, otherwise
   * the reading drawn on its band's colour; `toNumber` stands for `Number`.
   */
  function UVIndexIcon(uvIndex: Option<string>, toNumber: string -> Option<int>): (r: Option<(string, string)>)
    ensures r.None? <==> uvIndex.None? || IsBlank(uvIndex.value)
    ensures r.Some? ==> r.value.0 == uvIndex.value && r.value.1 == BandColor(Band(toNumber(uvIndex.value)))
  {
    if uvIndex.None? || uvIndex.value == "" || IsBlank(uvIndex.value) then None
    else Some((uvIndex.value, UVIndexColor(toNumber(uvIndex.value))))
  }
}
