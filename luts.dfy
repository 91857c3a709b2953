/**
 * The two lookup tables of luts.py: ERA5 short variable names to the long
 * names the download step uses as file prefixes, and the index keys to their
 * display names.
 */
module Luts {

  /** `varname_prefix_lu`. */
  const VarnamePrefix: map<string, string> := map[
    "tp" := "total_precipitation",
    "sd" := "snow_depth",
    "swvl1" := "volumetric_soil_water_layer_1",
    "swvl2" := "volumetric_soil_water_layer_2",
    "pev" := "potential_evaporation"
  ]

  /** `index_lu`. */
  const IndexNames: map<string, string> := map[
    "tp" := "Total precipitation",
    "pntp" := "Total precipitation % of Normal",
    "swe" := "Snow water equivalent",
    "pnswe" := "Snow water equivalent % of Normal"
  ]

  lemma VarnamePrefixEntries()
    ensures VarnamePrefix.Keys == {"tp", "sd", "swvl1", "swvl2", "pev"}
    ensures VarnamePrefix["tp"] == "total_precipitation"
    ensures VarnamePrefix["sd"] == "snow_depth"
    ensures VarnamePrefix["swvl1"] == "volumetric_soil_water_layer_1"
    ensures VarnamePrefix["swvl2"] == "volumetric_soil_water_layer_2"
    ensures VarnamePrefix["pev"] == "potential_evaporation"
  {
  }

  /** No two short names share a prefix, so a prefix names one variable. */
  lemma VarnamePrefixInjective()
    ensures forall a, b :: a in VarnamePrefix && b in VarnamePrefix && a != b ==> VarnamePrefix[a] != VarnamePrefix[b]
  {
  }

  lemma IndexNamesKeys()
    ensures IndexNames.Keys == {"tp", "pntp", "swe", "pnswe"}
    ensures "spi" !in IndexNames && "spei" !in IndexNames
  {
  }
}
