/** The repository ships two builds of the same element.
    `Modular` is the split version (lib/twind-scope.ts with lib/data-manager.ts,
    lib/alpine-integration.ts and lib/utils.ts); `Legacy` is the older all-in-one
    lib/main.ts, which is the file the build actually bundles. Members whose
    behaviour differs between the two take a `Variant`. */
module Variants {
  datatype Variant = Modular | Legacy
}
