/**
 * The compliance gate of `MockAPIClient.is_address_sanctioned`: a fixed
 * denylist compared case-insensitively, and otherwise a call to an external
 * sanctions service that fails closed.
 */
module Compliance {
  import opened Wrappers

  /** The single hard-coded sanctioned address. */
  const SanctionedAddress: string := "0x000000000000000000000000000000000000dEaD"

  /** The check type sent with every service request. */
  const SanctionsCheckType: string := "sanctions"

  /** What the sanctions service answered: a 2xx response, or any request failure. */
  datatype ServiceResult = Ok | Fail

  /** The JSON payload `{address, check_type}` posted to the service. */
  datatype ComplianceRequest = ComplianceRequest(address: string, checkType: string)

  /** The decision, and the request made to the service (none when the denylist decided). */
  datatype Decision = Decision(sanctioned: bool, request: Option<ComplianceRequest>)

  function LowerChar(c: char): (d: char)
    ensures 'A' <= c <= 'Z' ==> d as int == c as int + 32
    ensures !('A' <= c <= 'Z') ==> d == c
    ensures !('A' <= d <= 'Z')
  {
    if 'A' <= c <= 'Z' then (c as int + 32) as char else c
  }

  /** ASCII lower-casing of a whole string, character by character. */
  function ToLower(s: string): (r: string)
    ensures |r| == |s|
    ensures forall i :: 0 <= i < |s| ==> r[i] == LowerChar(s[i])
    ensures forall i :: 0 <= i < |r| ==> !('A' <= r[i] <= 'Z')
  {
    seq(|s|, i requires 0 <= i < |s| => LowerChar(s[i]))
  }

  /** The address equals the sanctioned address once both are lower-cased. */
  predicate IsDenylisted(address: string)
  {
    ToLower(address) == ToLower(SanctionedAddress)
  }

  /** Denylisting is an exact, character-by-character match that ignores only letter case. */
  lemma DenylistIsCaseInsensitiveExactMatch(address: string)
    ensures IsDenylisted(address) <==>
      |address| == |SanctionedAddress| &&
      forall i :: 0 <= i < |address| ==> LowerChar(address[i]) == LowerChar(SanctionedAddress[i])
  {
    var la, ls := ToLower(address), ToLower(SanctionedAddress);
    if |address| == |SanctionedAddress| &&
       forall i :: 0 <= i < |address| ==> LowerChar(address[i]) == LowerChar(SanctionedAddress[i])
    {
      forall i | 0 <= i < |la| ensures la[i] == ls[i] {
      }
    }
  }

  /** The decision of `is_address_sanctioned` given the service's answer, were it asked. */
  function CheckSanctions(address: string, service: ServiceResult): (d: Decision)
    // the denylist short-circuits: sanctioned, and the service is never called
    ensures IsDenylisted(address) ==> d.sanctioned && d.request.None?
    // otherwise exactly one request, about this address, is made
    ensures !IsDenylisted(address) ==>
      d.request == Some(ComplianceRequest(address, SanctionsCheckType))
    // fail-closed: a failed call sanctions, a successful call clears
    ensures !IsDenylisted(address) ==> (d.sanctioned <==> service == Fail)
  {
    if IsDenylisted(address) then
      Decision(true, None)
    else
      Decision(service == Fail, Some(ComplianceRequest(address, SanctionsCheckType)))
  }

  /** Any spelling of the sanctioned address is refused whatever the service would say. */
  lemma SanctionedAddressAnyCase(service: ServiceResult)
    ensures CheckSanctions("0x000000000000000000000000000000000000DEAD", service) == Decision(true, None)
    ensures CheckSanctions("0x000000000000000000000000000000000000dead", service) == Decision(true, None)
  {
    var upper, lower := "0x000000000000000000000000000000000000DEAD", "0x000000000000000000000000000000000000dead";
    forall i | 0 <= i < |SanctionedAddress|
      ensures ToLower(upper)[i] == ToLower(SanctionedAddress)[i]
      ensures ToLower(lower)[i] == ToLower(SanctionedAddress)[i]
    {
    }
  }
}
