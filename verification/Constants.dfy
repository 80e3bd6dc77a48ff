/** Size limits shared by the writer and the reader (hippius_hub/constants.py). */
module Constants {
  import opened Basics

  const DEFAULT_PACK_SIZE: nat := 64 * 1024 * 1024
  const MAX_PACK_BYTES: nat := 1024 * 1024 * 1024
  const FASTCDC_MAXIMUM_MAX: nat := 16 * 1024 * 1024

  datatype ConfigError = NotPositive(value: int) | PackTooLarge(value: int)

  /** A positive integer setting; `raw` is the parsed environment value, if any. */
  function ResolvePositiveInt(raw: Option<int>, default: nat): Result<int, ConfigError> {
    match raw
    case None => Ok(default)
    case Some(value) => if value <= 0 then Err(NotPositive(value)) else Ok(value)
  }

  function ResolvePackSize(raw: Option<int>): Result<int, ConfigError> {
    match ResolvePositiveInt(raw, DEFAULT_PACK_SIZE)
    case Err(e) => Err(e)
    case Ok(value) =>
      if value > MAX_PACK_BYTES - FASTCDC_MAXIMUM_MAX then Err(PackTooLarge(value)) else Ok(value)
  }

  /** Which settings are taken: none gives the default of 64 MiB, and a value is taken as it is when it
      is positive and leaves room for one more chunk of 16 MiB below the reader's ceiling of 1 GiB. */
  lemma PackSizeTable(value: int)
    ensures ResolvePackSize(None) == Ok(67_108_864)
    ensures value <= 0 ==> ResolvePackSize(Some(value)) == Err(NotPositive(value))
    ensures 0 < value <= 1_073_741_824 - 16_777_216 ==> ResolvePackSize(Some(value)) == Ok(value)
    ensures value > 1_073_741_824 - 16_777_216 ==> ResolvePackSize(Some(value)) == Err(PackTooLarge(value))
  {
  }
}
