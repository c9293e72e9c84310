/** Addresses in the image before RVAs are known, and what a relocation can refer to. */
module Targets {
  /** `output` is the index of an output section. */
  datatype Address = Address(output: nat, offset: int)

  datatype Target = SectionTarget(address: Address) | ImageBaseTarget | AbsoluteTarget(value: int)

  /** The output a target names exists. */
  predicate TargetOk(outputs: nat, t: Target) {
    t.SectionTarget? ==> t.address.output < outputs
  }
}
