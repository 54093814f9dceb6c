/**
 * Naming helpers of the Home Assistant service calls: the dotted service name,
 * the display name of a field and the quicklink that re-runs a call.
 *
 * `JSON.stringify` and `encodeURI` are not part of this model; they are
 * function parameters.
 */
module HAServiceUtils {
  import opened Wrappers
  import opened Strings
  import HAServices

  /** `fullHAServiceName`: domain, a dot, service. */
  function FullServiceName(call: HAServices.ServiceCall): (r: string)
    ensures |r| == |call.domain| + 1 + |call.service|
    ensures StartsWith(r, call.domain) && r[|call.domain|] == '.' && r[|call.domain| + 1..] == call.service
  {
    call.domain + "." + call.service
  }

  /** A domain without a dot is recovered from the full name as the text before its first dot. */
  lemma FullServiceNameSplits(call: HAServices.ServiceCall)
    requires forall i :: 0 <= i < |call.domain| ==> call.domain[i] != '.'
    ensures var full := FullServiceName(call);
      IndexOf(full, ".") == |call.domain| &&
      full[..IndexOf(full, ".")] == call.domain && full[IndexOf(full, ".") + 1..] == call.service
  {
    var full := FullServiceName(call);
    assert OccursAt(full, ".", |call.domain|);
    forall i | 0 <= i < |call.domain|
      ensures !OccursAt(full, ".", i)
    {
      assert full[i] == call.domain[i];
      assert full[i..i + 1] == [full[i]];
    }
  }

  /** `getNameOfHAServiceField`: the field's own name, untrimmed, unless it is missing or blank. */
  function FieldName(field: HAServices.ServiceField, fallback: string): (r: string)
    ensures field.name.Some? && !IsBlank(field.name.value) ==> r == field.name.value
    ensures field.name.None? || IsBlank(field.name.value) ==> r == fallback
  {
    if field.name.Some? && !IsBlank(field.name.value) then field.name.value else fallback
  }

  const QuicklinkPrefix: string := "raycast://extensions/tonka3000/homeassistant/runService?context="

  /** The payload of a quicklink: the call and its data, already serialised by the caller. */
  datatype ServiceCallPayload = ServiceCallPayload(domain: string, service: string, data: string)

  /** `getHAServiceQuicklink`: the fixed prefix followed by the encoded JSON of the payload. */
  function Quicklink(payload: ServiceCallPayload, stringify: ServiceCallPayload -> string,
                     encode: string -> string): (r: string)
    ensures StartsWith(r, QuicklinkPrefix)
    ensures r[|QuicklinkPrefix|..] == encode(stringify(payload))
  {
    QuicklinkPrefix + encode(stringify(payload))
  }
}
