/**
 * The request and response helpers of the weather extension's wttr.in client:
 * query-string building, request URLs, HTTP status classification and the
 * field extractors for the current conditions and the nearest area.
 *
 * `encodeURI` and the icon lookup `getWindDirectionIcon` are not part of this
 * model; they are function parameters. The HTTP exchange itself is not
 * modelled: a response is an input.
 */
module Wttr {
  import opened Wrappers
  import opened Strings

  const BaseUrl: string := "https://wttr.in"
  const SupportedLanguages: seq<string> := ["en", "de", "fr"]

  /** One `key=encodeURI(value)` item of the query string. */
  function ParamItem(param: (string, string), encode: string -> string): string
  {
    param.0 + "=" + encode(param.1)
  }

  function ParamItems(params: seq<(string, string)>, encode: string -> string): (r: seq<string>)
    ensures |r| == |params|
    ensures forall i :: 0 <= i < |params| ==> r[i] == ParamItem(params[i], encode)
  {
    seq(|params|, i requires 0 <= i < |params| => ParamItem(params[i], encode))
  }

  /** The query string for `params` (in key order): empty without parameters, else "?" and the items joined by "&". */
  function QueryString(params: seq<(string, string)>, encode: string -> string): string
  {
    if |params| == 0 then "" else "?" + Join(ParamItems(params, encode), "&")
  }

  /** `paramString` */
  method ParamString(params: seq<(string, string)>, encode: string -> string) returns (r: string)
    ensures r == QueryString(params, encode)
  {
    var p: seq<string> := [];
    for i := 0 to |params|
      invariant p == ParamItems(params[..i], encode)
    {
      var v := encode(params[i].1);
      p := p + [params[i].0 + "=" + v];
    }
    assert params[..|params|] == params;
    var prefix := "";
    if |p| > 0 {
      prefix := "?";
    }
    r := prefix + Join(p, "&");
  }

  /**
   * Adding one parameter extends the query string by exactly its item: "?" and
   * the item for the first one, "&" and the item after that.
   */
  lemma {:induction false} QueryStringSnoc(params: seq<(string, string)>, param: (string, string), encode: string -> string)
    ensures QueryString(params + [param], encode) ==
      if |params| == 0 then "?" + ParamItem(param, encode)
      else QueryString(params, encode) + "&" + ParamItem(param, encode)
  {
    assert ParamItems(params + [param], encode) == ParamItems(params, encode) + [ParamItem(param, encode)];
    if |params| == 0 {
      JoinSingleton(ParamItem(param, encode), "&");
    } else {
      JoinSnoc(ParamItems(params, encode), ParamItem(param, encode), "&");
    }
  }

  /** The URL `Wttr.fetch` requests: base, "/", the city or nothing, and the query string. */
  method FetchUrl(city: Option<string>, params: seq<(string, string)>, encode: string -> string) returns (url: string)
    ensures url == BaseUrl + "/" + city.GetOr("") + QueryString(params, encode)
  {
    var ps := ParamString(params, encode);
    url := BaseUrl + "/" + (if city.Some? && city.value != "" then city.value else "") + ps;
  }

  /** The parameters `getWeather` sends: always `format=j1`, and `lang` only for a supported language. */
  function WeatherParams(language: Option<string>): (r: seq<(string, string)>)
    ensures |r| >= 1 && r[0] == ("format", "j1")
    ensures |r| == 2 <==> language.Some? && language.value in SupportedLanguages
    ensures |r| == 2 ==> r[1] == ("lang", language.value)
    ensures |r| <= 2
  {
    if language.Some? && language.value != "" && language.value in SupportedLanguages
    then [("format", "j1"), ("lang", language.value)]
    else [("format", "j1")]
  }

  /** The query string of `getWeather`: `format=j1`, then `lang` for a supported language. */
  lemma WeatherQuery(language: Option<string>, encode: string -> string)
    ensures QueryString(WeatherParams(language), encode) ==
      "?" + ParamItem(("format", "j1"), encode) +
      (if language.Some? && language.value in SupportedLanguages then "&" + ParamItem(("lang", language.value), encode) else "")
  {
    var params := WeatherParams(language);
    var fmt := ParamItem(("format", "j1"), encode);
    if language.Some? && language.value in SupportedLanguages {
      var lang := ParamItem(("lang", language.value), encode);
      assert ParamItems(params, encode) == [fmt, lang];
      assert [fmt, lang][1..] == [lang];
      JoinSingleton(lang, "&");
    } else {
      assert ParamItems(params, encode) == [fmt];
      JoinSingleton(fmt, "&");
    }
  }

  /** `getWeather`'s request URL. */
  method WeatherUrl(city: Option<string>, language: Option<string>, encode: string -> string) returns (url: string)
    ensures url == BaseUrl + "/" + city.GetOr("") + "?format=" + encode("j1") +
      (if language.Some? && language.value in SupportedLanguages then "&lang=" + encode(language.value) else "")
  {
    var params := WeatherParams(language);
    WeatherQuery(language, encode);
    url := FetchUrl(city, params, encode);
  }

  /** The fields of a JSON response body that the classification reads. */
  datatype Json = Json(error: Option<string>, message: Option<string>)

  /** A response: its status and its body, `None` when the body is not valid JSON. */
  datatype Response = Response(status: int, body: Option<Json>)

  /** The value `toJsonOrError` resolves to, or the message of the `Error` it throws. */
  datatype Outcome = Parsed(json: Json) | Thrown(message: string)

  function InvalidJsonMessage(status: int): string
  {
    "Server-side issue at wttr.in (" + IntToString(status) + " - invalid json). Please try again later"
  }

  function ServerSideMessage(status: int): string
  {
    "Server-side issue at wttr.in (" + IntToString(status) + "). Please try again later"
  }

  /** `getJson`: the parsed body, or the invalid-JSON error. */
  function GetJson(r: Response): Outcome
  {
    if r.body.Some? then Parsed(r.body.value) else Thrown(InvalidJsonMessage(r.status))
  }

  /** `toJsonOrError`: the status classification. */
  function ToJsonOrError(r: Response): (o: Outcome)
    ensures o.Parsed? <==> 200 <= r.status < 300 && r.body.Some?
    ensures o.Parsed? ==> o.json == r.body.value
    ensures r.status == 401 ==> o == Thrown("Unauthorized")
    ensures r.status == 404 ==> o == Thrown("Not found")
    ensures r.status == 403 && r.body.Some? ==>
      o == Thrown(if r.body.value.error == Some("insufficient_scope") then "Insufficient API token scope" else "Forbidden")
    ensures 400 <= r.status < 500 && r.status !in {401, 403, 404} && r.body.Some? ==>
      o == Thrown(r.body.value.message.GetOr(""))
    ensures r.body.None? && (200 <= r.status < 300 || (400 <= r.status < 500 && r.status !in {401, 404})) ==>
      o == Thrown(InvalidJsonMessage(r.status))
    ensures 500 <= r.status < 600 ==> o == Thrown(ServerSideMessage(r.status))
    ensures r.status < 200 || 300 <= r.status < 400 || 600 <= r.status ==>
      o == Thrown("http status " + IntToString(r.status))
  {
    var s := r.status;
    if s >= 200 && s < 300 then
      GetJson(r)
    else if s == 401 then
      Thrown("Unauthorized")
    else if s == 403 then
      match GetJson(r)
      case Thrown(m) => Thrown(m)
      case Parsed(json) =>
        var msg := if json.error.Some? && json.error.value != "" && json.error.value == "insufficient_scope"
                   then "Insufficient API token scope" else "Forbidden";
        Thrown(msg)
    else if s == 404 then
      Thrown("Not found")
    else if s >= 400 && s < 500 then
      match GetJson(r)
      case Thrown(m) => Thrown(m)
      case Parsed(json) => Thrown(json.message.GetOr(""))
    else if s >= 500 && s < 600 then
      Thrown(ServerSideMessage(s))
    else
      Thrown("http status " + IntToString(s))
  }

  /**
   * `Wttr.fetch`: a failure is re-thrown as `Error(error)`, whose message is the
   * original error's string form: "Error: " followed by its message, or just
   * "Error" when the message is empty.
   */
  function Fetch(r: Response): (o: Outcome)
    ensures o.Parsed? <==> ToJsonOrError(r).Parsed?
    ensures o.Thrown? && ToJsonOrError(r).message != "" ==> o.message == "Error: " + ToJsonOrError(r).message
    ensures o.Thrown? && ToJsonOrError(r).message == "" ==> o.message == "Error"
  {
    match ToJsonOrError(r)
    case Parsed(json) => Parsed(json)
    case Thrown(m) => Thrown(if m == "" then "Error" else "Error: " + m)
  }

  /** A string field of the response that may be missing; JavaScript treats a missing or empty one as false. */
  predicate Present(s: Option<string>)
  {
    s.Some? && s.value != ""
  }

  /** The current conditions, reduced to the fields the extractors read. */
  datatype Conditions = Conditions(
    humidity: Option<string>,
    windspeedKmph: Option<string>,
    windspeedMiles: Option<string>,
    winddirDegree: Option<string>,
    winddir16Point: Option<string>)

  datatype Humidity = Humidity(value: string, unit: string, valueAndUnit: string)

  /** `getCurrentHumidity` */
  function CurrentHumidity(curcon: Option<Conditions>): (r: Option<Humidity>)
    ensures r.None? <==> curcon.None? || !Present(curcon.value.humidity)
    ensures r.Some? ==> r.value == Humidity(curcon.value.humidity.value, "%", curcon.value.humidity.value + " %")
  {
    if curcon.None? then None
    else if !Present(curcon.value.humidity) then None
    else
      var h := curcon.value.humidity.value;
      Some(Humidity(h, "%", h + " %"))
  }

  /** Which wind speed field `windspeed${getWttrWindPostfix()}` selects. */
  datatype WindPostfix = Kmph | Miles

  datatype Wind = Wind(speed: string, unit: string, dirDeg: string, dirIcon: string, dirText: string)

  function WindSpeedField(c: Conditions, postfix: WindPostfix): Option<string>
  {
    match postfix
    case Kmph => c.windspeedKmph
    case Miles => c.windspeedMiles
  }

  /**
   * `getCurrentWindConditions`: `unit` is `getWindUnit()` and `directionIcon`
   * is `getWindDirectionIcon`, whose empty result falls back to "?".
   */
  function CurrentWindConditions(curcon: Option<Conditions>, postfix: WindPostfix, unit: string,
                                 directionIcon: string -> string): (r: Option<Wind>)
    ensures r.None? <==>
      curcon.None? || !Present(WindSpeedField(curcon.value, postfix)) ||
      !Present(curcon.value.winddirDegree) || !Present(curcon.value.winddir16Point)
    ensures r.Some? ==>
      r.value.speed == WindSpeedField(curcon.value, postfix).value && r.value.unit == unit &&
      r.value.dirDeg == curcon.value.winddirDegree.value && r.value.dirText == curcon.value.winddir16Point.value &&
      r.value.dirIcon == (if directionIcon(curcon.value.winddirDegree.value) != ""
                          then directionIcon(curcon.value.winddirDegree.value) else "?")
    ensures r.Some? ==> r.value.dirIcon != ""
  {
    if curcon.None? then None
    else
      var c := curcon.value;
      var speed := WindSpeedField(c, postfix);
      if !Present(speed) then None
      else
        var dirDeg := c.winddirDegree;
        if !Present(dirDeg) then None
        else
          var icon := directionIcon(dirDeg.value);
          var dirIcon := if icon != "" then icon else "?";
          var dirText := c.winddir16Point;
          if !Present(dirText) then None
          else Some(Wind(speed.value, unit, dirDeg.value, dirIcon, dirText.value))
  }

  /** The nearest area; each name is a list of `{value}` objects that may be absent. */
  datatype Area = Area(
    areaName: Option<seq<string>>,
    country: Option<seq<string>>,
    region: Option<seq<string>>,
    latitude: Option<string>,
    longitude: Option<string>,
    population: Option<string>)

  datatype AreaValues = AreaValues(
    areaName: Option<string>,
    country: Option<string>,
    region: Option<string>,
    latitude: Option<string>,
    longitude: Option<string>,
    population: Option<string>)

  /** `getStringVal`: the first element's `value`, or nothing for an absent or empty list. */
  function FirstValue(obj: Option<seq<string>>): (r: Option<string>)
    ensures r.Some? <==> obj.Some? && |obj.value| > 0
    ensures r.Some? ==> r.value == obj.value[0]
  {
    if obj.None? then None
    else if |obj.value| > 0 then Some(obj.value[0])
    else None
  }

  /** `getAreaValues` */
  function GetAreaValues(area: Option<Area>): (r: Option<AreaValues>)
    ensures r.Some? <==> area.Some?
    ensures r.Some? ==>
      r.value.areaName == FirstValue(area.value.areaName) &&
      r.value.country == FirstValue(area.value.country) &&
      r.value.region == FirstValue(area.value.region) &&
      r.value.latitude == area.value.latitude &&
      r.value.longitude == area.value.longitude &&
      r.value.population == area.value.population
  {
    if area.None? then None
    else
      var a := area.value;
      Some(AreaValues(FirstValue(a.areaName), FirstValue(a.country), FirstValue(a.region),
                      a.latitude, a.longitude, a.population))
  }
}
