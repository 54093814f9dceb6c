/**
 * Home Assistant entity states: the search pipeline behind the states list and
 * the icon chosen for an entity.
 *
 * Lower-casing covers ASCII letters only. `parseFloat` on a battery state is a
 * function parameter whose result is a whole number, `None` for NaN.
 */
module HAStates {
  import opened Wrappers
  import opened Strings
  import opened Sequences

  /** An entity state with the attributes the search and the icons read. */
  datatype State = State(
    entityId: string,
    state: string,
    deviceClass: Option<string>,
    icon: Option<string>,
    friendlyName: string)

  /** Icon tints: the named colours used here, or a literal colour. */
  datatype Tint = Blue | Yellow | Red | Hex(code: string)

  const PrimaryIconColor: Tint := Blue
  const SearchLimit: nat := 100

  // ---------------------------------------------------------------- search

  /** `s.filter(keep)` */
  function Filter(s: seq<State>, keep: State -> bool): (r: seq<State>)
    ensures |r| <= |s|
    ensures forall x :: x in r ==> x in s && keep(x)
    ensures forall x :: x in s && keep(x) ==> x in r
    decreases |s|
  {
    if |s| == 0 then []
    else if keep(s[0]) then [s[0]] + Filter(s[1..], keep)
    else Filter(s[1..], keep)
  }

  lemma {:induction false} FilterIsSubsequence(s: seq<State>, keep: State -> bool)
    ensures Subsequence(Filter(s, keep), s)
    decreases |s|
  {
    if |s| > 0 {
      FilterIsSubsequence(s[1..], keep);
      if keep(s[0]) {
        assert Filter(s, keep)[1..] == Filter(s[1..], keep);
      } else {
        SubsequenceDropHead(Filter(s, keep), s);
      }
    }
  }

  /** The text filter: the query occurs, case-insensitively, in the entity id or the friendly name. */
  predicate MatchesQuery(s: State, query: string)
  {
    Includes(ToLower(s.entityId), ToLower(query)) || Includes(ToLower(s.friendlyName), ToLower(query))
  }

  /** Whether a state passes every filter that is switched on. */
  predicate Passes(s: State, query: Option<string>, domain: string, deviceClass: Option<string>)
  {
    (domain == "" || StartsWith(s.entityId, domain)) &&
    (deviceClass.None? || deviceClass.value == "" || s.deviceClass == deviceClass) &&
    (query.None? || query.value == "" || MatchesQuery(s, query.value))
  }

  /** One optional stage of the pipeline: `s.filter(keep)` when `on`, else `s` itself. */
  function FilterIf(s: seq<State>, on: bool, keep: State -> bool): (r: seq<State>)
    ensures on ==> r == Filter(s, keep)
    ensures !on ==> r == s
    ensures Subsequence(r, s)
  {
    if on then
      FilterIsSubsequence(s, keep);
      Filter(s, keep)
    else
      SubsequenceReflexive(s);
      s
  }

  /** The first `SearchLimit` elements: `s.slice(0, 100)`. */
  function Limit(s: seq<State>): (r: seq<State>)
    ensures |r| <= SearchLimit
    ensures Subsequence(r, s)
    ensures |s| <= SearchLimit ==> r == s
    ensures |s| > SearchLimit ==> |r| == SearchLimit && r == s[..SearchLimit]
  {
    if |s| <= SearchLimit then
      SubsequenceReflexive(s);
      s
    else
      PrefixIsSubsequence(s, SearchLimit);
      s[..SearchLimit]
  }

  /** The three filters of `useStateSearch` in their order: domain, device class, query. */
  function Matching(query: Option<string>, domain: string, deviceClass: Option<string>, all: seq<State>): (r: seq<State>)
    ensures Subsequence(r, all)
    ensures forall x :: x in r <==> x in all && Passes(x, query, domain, deviceClass)
  {
    var byDomain := FilterIf(all, domain != "", (s: State) => StartsWith(s.entityId, domain));
    var byClass := FilterIf(byDomain, deviceClass.Some? && deviceClass.value != "",
                            (s: State) => s.deviceClass == deviceClass);
    var byQuery := FilterIf(byClass, query.Some? && query.value != "",
                            (s: State) => MatchesQuery(s, query.GetOr("")));
    SubsequenceTransitive(byClass, byDomain, all);
    SubsequenceTransitive(byQuery, byClass, all);
    SubsequenceMembers(byQuery, byClass);
    SubsequenceMembers(byClass, byDomain);
    SubsequenceMembers(byDomain, all);
    byQuery
  }

  /** The effect of `useStateSearch`: filter by domain, device class and query, keep the first 100. */
  function StateSearch(query: Option<string>, domain: string, deviceClass: Option<string>,
                       allStates: Option<seq<State>>): (r: seq<State>)
    ensures allStates.None? ==> r == []
    ensures |r| <= SearchLimit
    ensures allStates.Some? ==> Subsequence(r, allStates.value)
    ensures forall x :: x in r ==> Passes(x, query, domain, deviceClass)
    ensures allStates.Some? && |r| < SearchLimit ==>
      forall x :: x in allStates.value && Passes(x, query, domain, deviceClass) ==> x in r
    ensures allStates.Some? ==> r == Limit(Matching(query, domain, deviceClass, allStates.value))
  {
    if allStates.None? then []
    else
      var matching := Matching(query, domain, deviceClass, allStates.value);
      var r := Limit(matching);
      SubsequenceTransitive(r, matching, allStates.value);
      SubsequenceMembers(r, matching);
      r
  }

  // ---------------------------------------------------------------- icons

  const BatteryLevelIcons: seq<string> := [
    "battery-00.png", "battery-10.png", "battery-20.png", "battery-30.png",
    "battery-40.png", "battery-50.png", "battery-60.png", "battery-70.png",
    "battery-80.png", "battery-90.png", "battery-100.png"]

  /** The battery image: the tenth of the reading picks a table entry; anything outside the table keeps the full icon. */
  function BatteryIcon(reading: Option<int>): (src: string)
    ensures reading.Some? && 0 <= reading.value < 110 ==> src == BatteryLevelIcons[reading.value / 10]
    ensures reading.None? || reading.value < 0 || reading.value >= 110 ==> src == "battery-100.png"
    ensures src in BatteryLevelIcons
  {
    if reading.None? then "battery-100.png"
    else
      var level := reading.value / 10;
      if 0 <= level < |BatteryLevelIcons| then BatteryLevelIcons[level] else "battery-100.png"
  }

  /** The battery tint: red up to 20, yellow up to 30, the primary colour above that or for NaN. */
  function BatteryTint(reading: Option<int>): (t: Tint)
    ensures t == Red <==> reading.Some? && reading.value <= 20
    ensures t == Yellow <==> reading.Some? && 20 < reading.value <= 30
    ensures t == PrimaryIconColor <==> reading.None? || reading.value > 30
  {
    if reading.Some? && reading.value <= 20 then Red
    else if reading.Some? && reading.value <= 30 then Yellow
    else PrimaryIconColor
  }

  /** A reading from 0 to 20 shows one of the three lowest images, in red. */
  lemma LowBatteryShowsRed(v: int)
    requires 0 <= v <= 20
    ensures BatteryTint(Some(v)) == Red
    ensures BatteryIcon(Some(v)) in {"battery-00.png", "battery-10.png", "battery-20.png"}
  {
  }

  /** The image for a device class other than battery. */
  function DeviceClassSource(dc: string): string
  {
    if dc == "temperature" then "temperature.png"
    else if dc == "power" then "power.png"
    else if dc == "update" then "update.png"
    else if dc == "connectivity" then "connectivity.png"
    else if dc == "carbon_dioxide" then "carbon-dioxide.png"
    else if dc == "pressure" then "pressure.png"
    else if dc == "humidity" then "humidity.png"
    else "entity.png"
  }

  /** `getDeviceClassIcon`; `parseFloat` is the parameter `parse`. */
  function DeviceClassIcon(s: State, parse: string -> Option<int>): (r: Option<(string, Tint)>)
    ensures r.None? <==> s.deviceClass.None? || s.deviceClass.value == ""
    ensures s.deviceClass == Some("battery") ==> r == Some((BatteryIcon(parse(s.state)), BatteryTint(parse(s.state))))
    ensures r.Some? && s.deviceClass != Some("battery") ==> r.value == (DeviceClassSource(s.deviceClass.value), PrimaryIconColor)
  {
    if s.deviceClass.None? || s.deviceClass.value == "" then None
    else
      var dc := s.deviceClass.value;
      if dc == "battery" then
        var v := parse(s.state);
        Some((BatteryIcon(v), BatteryTint(v)))
      else
        Some((DeviceClassSource(dc), PrimaryIconColor))
  }

  /** A light's tint from its lower-cased state. */
  function LightTint(state: string): Tint
  {
    var sl := ToLower(state);
    if sl == "unavailable" then Hex("#bdbdbd")
    else if sl == "on" then Yellow
    else if sl == "off" then Blue
    else PrimaryIconColor
  }

  function CoverSource(state: string): string
  {
    if state == "opening" then "cover-up.png"
    else if state == "closing" then "cover-down.png"
    else if state == "open" then "cover-open.png"
    else if state == "closed" then "cover-close.png"
    else "cover-open.png"
  }

  /** The entity id starts with none of the domains that have their own icon. */
  predicate GenericDomain(entityId: string)
  {
    !StartsWith(entityId, "light") && !StartsWith(entityId, "person") && !StartsWith(entityId, "cover") &&
    !StartsWith(entityId, "automation") && !StartsWith(entityId, "climate") && !StartsWith(entityId, "media_player")
  }

  /** `getIcon`: the first matching entity-id prefix decides; otherwise the device-class icon, then "entity.png". */
  function GetIcon(s: State, parse: string -> Option<int>): (r: (string, Tint))
    ensures StartsWith(s.entityId, "light") ==>
      r == (if s.icon == Some("mdi:lightbulb-group") then "lightbulb-group.png" else "lightbulb.png", LightTint(s.state))
    ensures !StartsWith(s.entityId, "light") && StartsWith(s.entityId, "person") ==>
      r == ("person.png", PrimaryIconColor)
    ensures !StartsWith(s.entityId, "light") && !StartsWith(s.entityId, "person") && StartsWith(s.entityId, "cover") ==>
      r == (CoverSource(s.state), PrimaryIconColor)
    ensures !StartsWith(s.entityId, "light") && !StartsWith(s.entityId, "person") && !StartsWith(s.entityId, "cover") &&
            StartsWith(s.entityId, "automation") ==>
      r == ("automation.png", PrimaryIconColor)
    ensures !StartsWith(s.entityId, "light") && !StartsWith(s.entityId, "person") && !StartsWith(s.entityId, "cover") &&
            !StartsWith(s.entityId, "automation") && StartsWith(s.entityId, "climate") ==>
      r == ("climate.png", PrimaryIconColor)
    ensures !StartsWith(s.entityId, "light") && !StartsWith(s.entityId, "person") && !StartsWith(s.entityId, "cover") &&
            !StartsWith(s.entityId, "automation") && !StartsWith(s.entityId, "climate") &&
            StartsWith(s.entityId, "media_player") ==>
      r == ("mediaplayer.png", PrimaryIconColor)
    ensures GenericDomain(s.entityId) ==> r == DeviceClassIcon(s, parse).GetOr(("entity.png", PrimaryIconColor))
    ensures !GenericDomain(s.entityId) ==> r.0 != "entity.png"
  {
    var e := s.entityId;
    if StartsWith(e, "light") then
      var source := if s.icon.Some? && s.icon.value != "" && s.icon.value == "mdi:lightbulb-group"
                    then "lightbulb-group.png" else "lightbulb.png";
      (source, LightTint(s.state))
    else if StartsWith(e, "person") then ("person.png", PrimaryIconColor)
    else if StartsWith(e, "cover") then (CoverSource(s.state), PrimaryIconColor)
    else if StartsWith(e, "automation") then ("automation.png", PrimaryIconColor)
    else if StartsWith(e, "climate") then ("climate.png", PrimaryIconColor)
    else if StartsWith(e, "media_player") then ("mediaplayer.png", PrimaryIconColor)
    else
      match DeviceClassIcon(s, parse)
      case Some(di) => di
      case None => ("entity.png", PrimaryIconColor)
  }
}
