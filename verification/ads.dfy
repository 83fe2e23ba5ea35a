/** The ad-slot resolver `getAdCode` the templates share: the dashboard writes
    a JSON object of slots, each with an `enabled` flag and an HTML `code`,
    into the worker as `adsConfig`. */
module Ads {
  import opened Wrappers

  /** One slot of the ads configuration; either field may be missing. */
  datatype AdSlot = AdSlot(enabled: Option<bool>, code: Option<string>)

  /** `adsConfig`, itself possibly missing (`null` after an empty fill). */
  type AdsConfig = Option<map<string, AdSlot>>

  /** The slot is configured, enabled, and has non-empty code. */
  predicate Serves(config: AdsConfig, slot: string) {
    config.Some? && slot in config.value
    && config.value[slot].enabled == Some(true)
    && config.value[slot].code.Some? && config.value[slot].code.value != []
  }

  /** `getAdCode(adType)`: the slot's code verbatim when the slot serves,
      otherwise the empty string. */
  function GetAdCode(config: AdsConfig, slot: string): (r: string)
    ensures r != [] <==> Serves(config, slot)
    ensures Serves(config, slot) ==> r == config.value[slot].code.value
  {
    if config.None? || slot !in config.value then ""
    else
      var s := config.value[slot];
      if s.enabled != Some(true) || s.code.None? || s.code.value == [] then ""
      else s.code.value
  }
}
