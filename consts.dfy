/**
 * The run limits. The source reads each from an environment variable with
 * `parseInt` and a default; here they are natural numbers handed in, and the
 * defaults are kept as constants.
 */
module Consts {

  datatype Limits = Limits(
    maxRecordsPerRun: nat,
    maxPromptChars: nat,
    maxTitleChars: nat,
    maxDescriptionChars: nat)

  /** The values used when the environment sets none (lib/consts.ts:9-16). */
  const DefaultLimits := Limits(50, 2000, 200, 2000)
}
