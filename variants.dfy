/**
 * The four floor-plan page scripts are variants of one design. They differ in
 * a few choices, named here once so that the rest of the model can ask for
 * them by name.
 */
module Variants {

  datatype Variant =
    | Frontend      // frontend/js/floor.js
    | Frontend1     // frontend1/js/floor.js
    | FrontendVer2  // frontend_ver2/js/floor.js
    | FrontendVer3  // frontend_ver3/js/floor.js

  /** The first two variants work from the scanned start node, check every
      coordinate with `typeof … === 'number'`, compare nodes by `qr_id` and
      navigate with a trailing `F` on the floor label. */
  predicate StartNodeDriven(v: Variant) {
    v == Frontend || v == Frontend1
  }

  /** Screen positions include the image's offset inside its container. */
  predicate UsesOffset(v: Variant) {
    v == Frontend || v == FrontendVer3
  }
}
